# Gravity Labs support and access core, in Dafny

Gravity Labs is a web studio's site. Customers log in on an access page (`/uplink`), and
then use a client dashboard (`/dashboard`) to request projects and to chat with staff.
Staff work in a console (`/admin/soporte`) where they:

- answer chats;
- watch presence;
- move project requests between statuses;
- search users;
- read an activity log.

A hook (`useServices`) fetches the service catalogue and looks up a service by slug or
name. A maintenance script (`sync-users.js`) creates an authentication account for every
profile that lacks one.

The pages keep their state in React and their data in a hosted Postgres with realtime
events. This project takes the logic out of the pages and states it over plain records:

- Each store table is a sequence of rows, or an `array` where an update changes rows in place.
- Each page is a `class`: its fields are the component's state and its methods are the event handlers.
- The transforms the handlers apply are functions, with lemmas about them.

Modules:

- `Wrappers`: `Option`.
- `Text`: the JavaScript string operations the pages use. These are `toLowerCase`,
  `toUpperCase`, `trim`, `includes`, `startsWith`, `split` and `replace` of a first
  occurrence.
- `Chat`: rows of `mensajes_soporte`, and what both consoles do with them:
  - the realtime INSERT and UPDATE handlers;
  - the bulk and single mark-read updates, as functions and as in-place loops over the table;
  - the fetch of one thread.
- `Attachments`: the `[IMAGE]:<url>` / `[FILE]:<name>|<url>` body codec.
- `Conversations`: the staff conversation list, built through a JavaScript `Map`.
- `ActivityLog`: the staff log, which keeps 50 entries newest first, and the stored-log load.
- `Presence`: the presence state as the pages read it.
- `Profiles`: user profiles and the staff user search.
- `Projects`: project-request rows, the requirement/project filters and the status change.
- `StaffConsole`: the staff console class.
- `ClientDashboard`: the catalogue, the `pkg` URL parameter resolution, the request record
  and the dashboard class.
- `Uplink`: the access page's step machine, with the credential check, role routing and
  query string.
- `Services`: `getService` and the hook's fetch state.
- `SyncUsers`: the account sync loop and its counters.

Everything the pages get from outside is a parameter of the method that receives it:

- rows returned by a query;
- whether an insert or update succeeded;
- the uploaded file's public URL;
- random ids and the clock;
- the realtime payload.

The model follows the code as written:

- An INSERT event appends its payload even when its id is already listed.
- The conversation list keeps, for each customer, the last row the `Map` saw. The rows
  come newest first, so that is the customer's oldest message.
- A registration navigates with the email as typed. A login navigates with the stored
  (lower-cased) email.
- After a successful submit, `loading` stays set.

## Model

| member | source | states |
|---|---|---|
| Text.Lower | src/app/admin/soporte/page.tsx:276 | `toLowerCase` on the modelled letters keeps the length. LowerIdempotent, LowerConcat, LowerUpper and TrimLower state how it combines. |
| Text.TrimStart | src/app/admin/soporte/page.tsx:373 | The result is a suffix of the input that starts with a non-space. Every character dropped is white space. |
| Text.TrimEnd | src/app/admin/soporte/page.tsx:373 | The result is a prefix of the input that ends with a non-space. Every character dropped is white space. |
| Text.Trim | src/app/admin/soporte/page.tsx:373 | `trim` is specified by TrimEmptyIffBlank, TrimIdempotent, TrimLower and TrimPadding below. |
| Text.TrimEmptyIffBlank | src/app/admin/soporte/page.tsx:373 | `!reply.trim()` holds exactly when the text is all white space, or empty. |
| Text.TrimIdempotent | src/hooks/useServices.ts:38 | Trimming twice is trimming once. |
| Text.TrimLower | src/hooks/useServices.ts:38 | Trimming and lower-casing commute. |
| Text.TrimPadding | src/hooks/useServices.ts:38 | White space added around a string does not change its trimmed form. |
| Text.TrimKeepsNonSpace | src/hooks/useServices.ts:38 | A character that is not white space occurs in the trimmed string exactly when it occurs in the string. |
| Text.LowerUpper | src/app/dashboard/page.tsx:62 | For Latin-1 text without `ß` or `µ` (`FoldsBack`), lower-casing the upper-cased string gives the string lower-cased. |
| Text.FoldsBack | src/app/dashboard/page.tsx:62 | The text on which the lemmas about upper- then lower-casing hold: Latin-1 characters other than `ß` and `µ`. |
| Text.LowerUpperExceptions | src/app/dashboard/page.tsx:62 | The two exceptions: `ß` comes back as "ss" and `µ` as the Greek `μ`. |
| Text.Upper | src/app/dashboard/page.tsx:62 | `toUpperCase` never shortens a string and keeps the empty string empty; LowerUpper, LowerUpperExceptions and UpperHasNoSharpS state how it combines with `toLowerCase`. |
| Text.UpperHasNoSharpS | src/app/dashboard/page.tsx:62 | No `ß` survives upper-casing: it becomes "SS". |
| Text.IncludesIff | src/app/dashboard/page.tsx:67 | `includes` holds exactly when the term occurs at some position. |
| Text.IncludesBounds | src/app/dashboard/page.tsx:67 | A string contains only terms no longer than itself. It contains a term of its own length only when the two are equal. |
| Text.Includes | src/app/dashboard/page.tsx:67 | `includes` is specified by IncludesIff and IncludesBounds. |
| Text.Split | src/app/admin/soporte/page.tsx:503 | `split` gives at least one piece, and no piece contains the separator. |
| Text.SplitCons | src/app/admin/soporte/page.tsx:503 | Text before the first separator is the first piece, and the rest splits on its own. |
| Text.RemoveFirstPrefix | src/app/admin/soporte/page.tsx:503 | `replace(tag, '')` on a tagged string gives back what followed the tag. |
| Text.RemoveFirst | src/app/admin/soporte/page.tsx:503 | `replace` of a first occurrence is specified by RemoveFirstPrefix. |
| Chat.Inserted | src/app/admin/soporte/page.tsx:335 | An INSERT event appends the payload: one more entry, and the earlier entries are unchanged. |
| Chat.Updated | src/app/admin/soporte/page.tsx:339-341 | An UPDATE event keeps the length. It replaces exactly the entries whose id is the payload's and keeps every other entry. |
| Chat.InsertAddsCopy | src/app/admin/soporte/page.tsx:335 | An INSERT never de-duplicates: the payload's id is listed once more, and every other id as often as before. |
| Chat.RepeatedInsertDuplicates | src/app/admin/soporte/page.tsx:335 | Inserting an already listed id leaves at least two entries with it. |
| Chat.UpdateKeepsIds | src/app/admin/soporte/page.tsx:339-341 | An UPDATE keeps the ids in order. |
| Chat.UpdateUnknownIsNoop | src/app/admin/soporte/page.tsx:339-341 | An UPDATE of an unlisted id changes nothing. |
| Chat.UpdateIdempotent | src/app/admin/soporte/page.tsx:339-341 | Delivering the same UPDATE twice is the same as delivering it once. |
| Chat.MarkedRead | src/app/admin/soporte/page.tsx:317-322 | The bulk update sets `leido` exactly on the conversation's unread rows by the given author role. Every other row is unchanged. |
| Chat.MarkedReadById | src/app/admin/soporte/page.tsx:337 | The single update sets `leido` exactly on the rows with that id. |
| Chat.MarkedReadClears | src/app/admin/soporte/page.tsx:317-322 | After the bulk update, no row of the conversation by that role is unread. |
| Chat.MarkedReadIdempotent | src/app/admin/soporte/page.tsx:317-322 | A second bulk update changes nothing. |
| Chat.MarkReadMonotone | src/app/admin/soporte/page.tsx:317-322 | Neither update ever clears `leido`. |
| Chat.MarkedReadCount | src/app/admin/soporte/page.tsx:317-322 | The bulk update changes exactly as many rows as there were targets. |
| Chat.SingleMarkRead | src/app/admin/soporte/page.tsx:336-338 | An incoming row triggers a single mark-read of its id exactly when it was written by the viewer's other role. |
| Chat.SingleMarkReadAgreesWithBulk | src/app/admin/soporte/page.tsx:336-338 | An unread row that an INSERT marks read by its id is one the bulk update of its conversation flips too; both give the row with `leido` set. |
| Chat.Thread | src/app/admin/soporte/page.tsx:310-315 | The thread holds the table rows of that customer, and every such row. |
| Chat.ThreadConcat | src/app/admin/soporte/page.tsx:310-315 | The thread keeps table order: the thread of two stretches of the table is their two threads, one after the other. |
| Chat.MarkReadInPlace | src/app/admin/soporte/page.tsx:317-322 | The store's bulk update, applied row by row in place, leaves the table equal to `MarkedRead` of the old table. |
| Chat.MarkReadByIdInPlace | src/app/admin/soporte/page.tsx:337 | The store's single update, applied in place, leaves the table equal to `MarkedReadById` of the old table. |
| Attachments.Encode | src/app/admin/soporte/page.tsx:362 | The body sent for an upload; its round trips through `Decode` are ImageRoundTrip, FileRoundTrip and FileNameWithBarIsCut. |
| Attachments.IsImageType | src/app/admin/soporte/page.tsx:362 | `file.type.startsWith('image/')`, the choice of tag; ImageRoundTrip and FileRoundTrip state what each choice gives back. |
| Attachments.Decode | src/app/admin/soporte/page.tsx:503 | The rendering decision; specified by the round trips, DecodeFileBody and PlainBody. |
| Attachments.ImageRoundTrip | src/app/admin/soporte/page.tsx:362 | An image body decodes back to its URL, whatever the URL contains. |
| Attachments.FileRoundTrip | src/app/admin/soporte/page.tsx:362 | A file body decodes back to its name and URL when neither contains a bar. |
| Attachments.FileNameWithBarIsCut | src/app/admin/soporte/page.tsx:503 | A file name that contains a bar does not come back: the shown name is the part of the name before its first bar, and the link is the next bar-free piece after it. |
| Attachments.PlainBody | src/app/admin/soporte/page.tsx:503 | A body with neither tag is shown as text, unchanged. |
| Attachments.DecodeFileParts | src/app/admin/soporte/page.tsx:503 | A file body whose name piece has no bar decodes to that piece and the next bar-free piece. |
| Conversations.FirstPos | src/app/admin/soporte/page.tsx:171 | The position of a key's first row: every earlier row has another key. |
| Conversations.MapSet | src/app/admin/soporte/page.tsx:171 | `Map.set`, in insertion order; specified by MapSetEffect. |
| Conversations.ConversationList | src/app/admin/soporte/page.tsx:171 | `new Map(rows.map(...)).values()`; specified by ConversationListSummarises and ConversationListSpec. |
| Conversations.MapSetEffect | src/app/admin/soporte/page.tsx:171 | `Map.set` on distinct keys replaces the value of a present key in place, or appends a new key at the end. |
| Conversations.ConversationListSummarises | src/app/admin/soporte/page.tsx:164-172 | The list has distinct keys, and the same keys as the rows. Each entry is the last row with its key, in order of first occurrence. |
| Conversations.ConversationListSpec | src/app/admin/soporte/page.tsx:164-172 | There is one entry per distinct `cliente_email`, in order of first occurrence. Each entry is the last row with its key. |
| Conversations.EntryIsOldestRow | src/app/admin/soporte/page.tsx:168-171 | Over newest-first rows, each conversation's entry is no later than any row of that customer. |
| ActivityLog.NewEntry | src/app/admin/soporte/page.tsx:43-48 | The shown entry carries the kind's name and the message tagged `[DAVID_ADMIN]`. |
| ActivityLog.Persisted | src/app/admin/soporte/page.tsx:53-58 | The stored row carries the kind, the untagged message and the author tag. |
| ActivityLog.Prepended | src/app/admin/soporte/page.tsx:50 | After logging, the log is the new entry followed by the old log, cut to `min(50, old + 1)` entries. |
| ActivityLog.LogAllNewestFirst | src/app/admin/soporte/page.tsx:50 | After several entries, the log is them newest first, then the old log, cut to 50. |
| ActivityLog.ReverseIndex | src/app/admin/soporte/page.tsx:50 | The entries logged one after another appear in the opposite order: position `i` holds the entry logged `i`-th from the end. |
| ActivityLog.Loaded | src/app/admin/soporte/page.tsx:107-120 | The loaded log is the first 100 stored rows, in order, each shown with its `[author]` tag. |
| ActivityLog.Formatted | src/app/admin/soporte/page.tsx:114-119 | A stored row keeps its id and type, and its message is tagged with its author. |
| Presence.OnlineStaff | src/app/dashboard/page.tsx:114-117 | There is one entry per presence key: the key's first tracked meta. |
| Presence.IsOnline | src/app/admin/soporte/page.tsx:294 | Online means the presence state has at least one key. StaffConsole.Console.OnPresenceSync and ClientDashboard.Dashboard.OnStaffPresenceSync state the flags it sets. |
| Profiles.FilteredUsers | src/app/admin/soporte/page.tsx:275-283 | A user is kept exactly when the lower-cased term occurs in the lower-cased nombre, email or rol, or in the raw telefono; FilteredUsersConcat gives the list order. |
| Profiles.Matches | src/app/admin/soporte/page.tsx:276-281 | The per-user test; specified by FilteredUsers, SearchIgnoresTermCase, PhoneIsCaseSensitive and PhoneFoundWhenLowerCase. |
| Profiles.SearchIgnoresTermCase | src/app/admin/soporte/page.tsx:276 | Lower-casing the term first does not change the result. |
| Profiles.FilteredIsSublist | src/app/admin/soporte/page.tsx:275 | The filter never adds users. It keeps the whole list exactly when every user matches. |
| Profiles.FilteredUsersConcat | src/app/admin/soporte/page.tsx:275-283 | The filter keeps list order and one entry per matching row: the result for two stretches of the list is their two results, one after the other. |
| Profiles.EmptyTermKeepsUsersWithAField | src/app/admin/soporte/page.tsx:278-281 | The empty term keeps exactly the users with at least one of the four fields present. |
| Profiles.PhoneIsCaseSensitive | src/app/admin/soporte/page.tsx:280 | The phone is searched raw: a user whose only field is a phone equal to a term that lower-casing changes is not found by that term. |
| Profiles.PhoneFoundWhenLowerCase | src/app/admin/soporte/page.tsx:280 | A phone equal to a term that lower-casing leaves unchanged is found by it. |
| Projects.Requirements | src/app/admin/soporte/page.tsx:632 | The list keeps exactly the rows whose package is `REQUERIMIENTO_ADICIONAL`. |
| Projects.NonRequirements | src/app/admin/soporte/page.tsx:634 | The list keeps exactly the rows whose package is not `REQUERIMIENTO_ADICIONAL`. |
| Projects.RequirementsConcat | src/app/admin/soporte/page.tsx:632 | The requirement filter keeps list order: the result for two stretches of the list is their two results, one after the other. |
| Projects.NonRequirementsConcat | src/app/admin/soporte/page.tsx:634 | The other filter keeps list order in the same way. |
| Projects.FiltersPartition | src/app/admin/soporte/page.tsx:629-635 | The two filters partition the list: together they hold every row exactly once. |
| Projects.FindById | src/app/admin/soporte/page.tsx:252 | `find` returns the first row with that id (every earlier row has another id), and returns nothing only when no row has it. |
| Projects.WithStatus | src/app/admin/soporte/page.tsx:262-264 | The `map` keeps the length; specified by WithStatusAt and StatusChangeOnlyTouchesMatch. |
| Projects.WithStatusAt | src/app/admin/soporte/page.tsx:262-264 | Each row with that id gets the new status, and every other row is kept. |
| Projects.StatusChangeOnlyTouchesMatch | src/app/admin/soporte/page.tsx:262-264 | Only `estado`, and only on rows with that id, changes. Applying it twice is applying it once. |
| Projects.StatusChangeKeepsRequirements | src/app/admin/soporte/page.tsx:262-264 | A status change never moves a row into or out of the requirement list. |
| Projects.StatusChangeKeepsProjects | src/app/admin/soporte/page.tsx:262-264 | A status change never moves a row into or out of the project list. |
| StaffConsole.TabView | src/app/admin/soporte/page.tsx:629-635 | The filter keeps exactly the requirement rows for 'requerimientos', every row for 'proyectos', and exactly the non-requirement rows for any other tab. |
| StaffConsole.TabsPartition | src/app/admin/soporte/page.tsx:629-635 | The requirement tab and the other request tab split the list between them. |
| StaffConsole.StatusChangeKeepsTabView | src/app/admin/soporte/page.tsx:262-264 | A status change keeps every request on the tab it was on. |
| StaffConsole.StaffDraft | src/app/admin/soporte/page.tsx:374 | A staff reply is an unread staff message from `GRAVITY_ADMIN`, in the selected conversation. |
| StaffConsole.StaffReplyIsReadByClient | src/app/admin/soporte/page.tsx:334-338 | A stored staff reply triggers no mark-read in the staff room, and a mark-read of its id in the client chat. It is in its client's thread, and the client's bulk update flips it. |
| StaffConsole.StatusMessage | src/app/admin/soporte/page.tsx:261 | The log text of a status change; HandleStatusChange states it, with `undefined` for an unknown id. |
| StaffConsole.ReplyLogMessage | src/app/admin/soporte/page.tsx:375 | The log line of a reply names the selected client; StaffConsole.Console.SendReply states that it is logged. |
| StaffConsole.UploadLogMessage | src/app/admin/soporte/page.tsx:364 | The log line of an attachment names the selected client; StaffConsole.Console.SendAttachment states that it is logged. |
| StaffConsole.Console.constructor | src/app/admin/soporte/page.tsx:13-23 | The initial state: the 'soporte' tab, no client selected, and everything empty. |
| StaffConsole.Console.VisibleRequests | src/app/admin/soporte/page.tsx:619-635 | The request list exists only on the three request tabs. There it holds exactly the loaded requirement rows on 'requerimientos', all loaded rows on 'proyectos', and exactly the other loaded rows on 'solicitudes'. |
| StaffConsole.Console.SelectTab | src/app/admin/soporte/page.tsx:388-389 | A tab button changes the tab and nothing else. |
| StaffConsole.Console.SelectClient | src/app/admin/soporte/page.tsx:466 | Selecting a conversation changes the selected client and nothing else. |
| StaffConsole.Console.EditReply | src/app/admin/soporte/page.tsx:513 | Typing changes the reply and nothing else. |
| StaffConsole.Console.Log | src/app/admin/soporte/page.tsx:40-62 | The tagged entry is prepended to the log, which is cut to 50, and the untagged row is returned for storing. Nothing else changes. |
| StaffConsole.Console.LoadLogs | src/app/admin/soporte/page.tsx:104-124 | The completion of the fetch the 'sistema' tab starts: rows replace the log, formatted, up to 100. No data leaves the log as it was. |
| StaffConsole.Console.OnMonitorMessage | src/app/admin/soporte/page.tsx:127-131 | A customer message is logged as incoming. A staff message logs nothing. |
| StaffConsole.Console.OnMonitorRequest | src/app/admin/soporte/page.tsx:132-134 | A new project request is logged with its name. |
| StaffConsole.Console.FetchGlobalData | src/app/admin/soporte/page.tsx:164-174 | The conversation list becomes the `Map`-deduplicated rows. No data leaves it as it was. |
| StaffConsole.Console.OnPresenceSync | src/app/admin/soporte/page.tsx:288-302 | The lower-cased client's flag becomes "the presence state has a key", and the client is shown online exactly then. |
| StaffConsole.Console.LoadConversation | src/app/admin/soporte/page.tsx:307-325 | On 'soporte' with a non-empty client selected, the thread is shown (an empty list when the fetch returns no data) and the client's unread customer rows are marked read. Otherwise nothing happens. |
| StaffConsole.Console.OnRoomInsert | src/app/admin/soporte/page.tsx:334-338 | The payload is appended. A customer's message is then marked read by id, and a staff message triggers no update. |
| StaffConsole.Console.OnRoomUpdate | src/app/admin/soporte/page.tsx:339-341 | The entries with the payload's id are replaced. |
| StaffConsole.Console.SendReply | src/app/admin/soporte/page.tsx:371-377 | A blank reply or no non-empty client does nothing. Otherwise the staff message is sent, the log entry is added, and the input is cleared. |
| StaffConsole.Console.SendAttachment | src/app/admin/soporte/page.tsx:352-366 | Without a file or a non-empty client, or when the upload fails, nothing is sent. Otherwise the encoded body is sent as a staff message and logged. |
| StaffConsole.Console.LoadProjects | src/app/admin/soporte/page.tsx:198-208 | The completion of the fetch the request tabs start: fetched rows replace the request list. No data leaves it as it was. |
| StaffConsole.Console.HandleStatusChange | src/app/admin/soporte/page.tsx:250-270 | When the update succeeds, the change is logged (an unknown id shows as `undefined`) and the matching rows take the status. When it fails, nothing changes. |
| ClientDashboard.FirstMatch | src/app/dashboard/page.tsx:67 | `find`: the index of the first package that matches. Every earlier package does not match. |
| ClientDashboard.ResolvePackage | src/app/dashboard/page.tsx:67 | The resolved id is always a catalogue id. |
| ClientDashboard.ResolveIsFirstMatch | src/app/dashboard/page.tsx:67 | The result is the first catalogue id that equals or contains the parameter, or `NEBULA_LANDING` when none does. |
| ClientDashboard.ResolvesToMatch | src/app/dashboard/page.tsx:67 | The first matching entry decides the result. |
| ClientDashboard.CatalogIdResolvesToItself | src/app/dashboard/page.tsx:41-48 | Each of the six ids, given exactly, resolves to itself: no earlier id equals or contains it. |
| ClientDashboard.EarlierIdsDoNotMatch | src/app/dashboard/page.tsx:41-48 | No catalogue id is equal to, or contains, a later one. |
| ClientDashboard.PartialParameterResolves | src/app/dashboard/page.tsx:67 | Any prefix of `ORBIT_APP` of five or more characters resolves to `ORBIT_APP`. |
| ClientDashboard.UnmatchedParameterFallsBack | src/app/dashboard/page.tsx:67 | A parameter with a character no id has resolves to `NEBULA_LANDING`. |
| ClientDashboard.SharpSParameterResolves | src/app/dashboard/page.tsx:62-67 | `?pkg=ß` upper-cases to "SS" and resolves to `SUPERNOVA_BUSINESS`. |
| ClientDashboard.PackageName | src/app/dashboard/page.tsx:181 | A catalogue id gives its display name, and any other value is returned unchanged. |
| ClientDashboard.PackageNameIsRequirementIff | src/app/dashboard/page.tsx:181 | The display name is the requirement marker exactly when the package is. |
| ClientDashboard.BuildRequest | src/app/dashboard/page.tsx:179-191 | A request is always 'en_revision' with the lower-cased email. In the requirements view it is a requirement named `[category] name`. Otherwise it carries the package's display name and the form's name. |
| ClientDashboard.StoredRequest | src/app/dashboard/page.tsx:183-191 | The stored row keeps the record's email, package, status and name. |
| ClientDashboard.OwnRequests | src/app/dashboard/page.tsx:79-83 | The fetch keeps exactly the rows of the client's email; OwnRequestsConcat gives the table order. |
| ClientDashboard.OwnRequestsConcat | src/app/dashboard/page.tsx:79-84 | The fetch keeps the table order and one entry per row: the client's rows of two stretches of the table are their two results, one after the other. |
| ClientDashboard.ViewList | src/app/dashboard/page.tsx:406-412 | The filter keeps exactly the requirement rows in the requirements view, and exactly the rest otherwise. |
| ClientDashboard.SubmittedRequestIsListed | src/app/dashboard/page.tsx:176-200 | A submitted request reaches the client's own list. From the requirements view it is listed as a requirement. From the projects view it is listed there exactly when the form's package is not the marker. |
| ClientDashboard.ClientDraft | src/app/dashboard/page.tsx:228 | A client message is an unread customer message under the lower-cased email. |
| ClientDashboard.ClientMessageIsReadByStaff | src/app/dashboard/page.tsx:158-162 | A stored client message triggers no mark-read in the client chat, and a mark-read of its id in the staff room. It is in the thread of the lower-cased email, and staff's bulk update flips it. |
| ClientDashboard.Dashboard.constructor | src/app/dashboard/page.tsx:15-38 | The name defaults to 'OPERADOR' and the email to empty. The form starts with `NEBULA_LANDING` and the default category. |
| ClientDashboard.Dashboard.Listed | src/app/dashboard/page.tsx:331-412 | A list is shown only in the two request views with the form closed. There it holds exactly the client's requirement rows in the requirements view, and exactly the others in the projects view. |
| ClientDashboard.Dashboard.OnSearchParams | src/app/dashboard/page.tsx:62-73 | A non-empty `pkg` opens the projects view with the form prefilled: the resolved id of the upper-cased parameter, and the name `DESPLIEGUE_<id>`. An empty or absent parameter changes nothing. |
| ClientDashboard.Dashboard.SelectView | src/app/dashboard/page.tsx:260 | A sidebar button changes the view and closes the form. |
| ClientDashboard.Dashboard.OpenForm | src/app/dashboard/page.tsx:293-299 | In a request view with the form closed, the form opens. In the requirements view it also resets the name, package and category. |
| ClientDashboard.Dashboard.EditForm | src/app/dashboard/page.tsx:348-377 | A form edit replaces the form and nothing else. |
| ClientDashboard.Dashboard.EditMessage | src/app/dashboard/page.tsx:479 | Typing changes the message and nothing else. |
| ClientDashboard.Dashboard.LoadProjects | src/app/dashboard/page.tsx:76-88 | In the two request views with an email, fetched rows make the list the client's own rows. A fetch with no data, or any other view, leaves it unchanged. |
| ClientDashboard.Dashboard.OnStaffPresenceSync | src/app/dashboard/page.tsx:113-118 | The staff list becomes one entry per presence key, and the indicator shows online exactly when there is a key. |
| ClientDashboard.Dashboard.OpenSupport | src/app/dashboard/page.tsx:130-147 | In the support view with an email, fetched rows make the thread the shown list (a fetch with no data keeps it), and the unread staff rows of that email are marked read. Otherwise nothing happens. |
| ClientDashboard.Dashboard.OnChatInsert | src/app/dashboard/page.tsx:158-162 | The payload is appended. A staff message is then marked read by id, and a client message triggers no update. |
| ClientDashboard.Dashboard.OnChatUpdate | src/app/dashboard/page.tsx:163-165 | The entries with the payload's id are replaced. |
| ClientDashboard.Dashboard.SendMessage | src/app/dashboard/page.tsx:225-230 | Blank text or no email sends nothing. Otherwise the customer message is sent, and the input is cleared only when the insert succeeded. |
| ClientDashboard.Dashboard.UploadFile | src/app/dashboard/page.tsx:205-223 | Without a file or an email, or when the upload fails, nothing happens. A brief fills the form's file URL. Any other file is sent as an encoded customer message. |
| ClientDashboard.Dashboard.SubmitProject | src/app/dashboard/page.tsx:176-200 | The record is built from the view and the form. The form closes only when the insert succeeded. |
| Uplink.Holders | src/app/uplink/page.tsx:36-40 | The rows matching the email are never more than the rows. |
| Uplink.HoldersMembers | src/app/uplink/page.tsx:39 | The matches are exactly the rows with that email. |
| Uplink.SingleByEmail | src/app/uplink/page.tsx:36-40 | `.single()` returns a row with that email only when every row with it is that row. It returns nothing when none has it. |
| Uplink.Registration | src/app/uplink/page.tsx:68-74 | The inserted row: the lower-cased email, the typed name, phone and password, and the role 'cliente'. FinalSubmit inserts it, and RegisterThenLogin shows a later login finds it. |
| Uplink.TwoHoldersGiveNoData | src/app/uplink/page.tsx:82-86 | Two rows with the same email make `.single()` return no data. |
| Uplink.UniqueHolderIsFound | src/app/uplink/page.tsx:82-86 | The one row holding an email is what `.single()` returns. |
| Uplink.Route | src/app/uplink/page.tsx:96 | A login goes to `/admin/soporte` exactly when the role is 'admin', and to `/dashboard` otherwise. |
| Uplink.QueryParams | src/app/uplink/page.tsx:99-106 | The query always starts with name and email, and has a third pair, `pkg`, exactly when a package was selected. |
| Uplink.RegisterThenLogin | src/app/uplink/page.tsx:65-96 | After registering a new email, a login with that email in any letter case finds the new row, password and all, and routes to `/dashboard`. |
| Uplink.UplinkContent.constructor | src/app/uplink/page.tsx:17-24 | The form starts at the email step, empty, not loading, with the URL's package. |
| Uplink.UplinkContent.EditEmail | src/app/uplink/page.tsx:186 | Typing changes the email and nothing else. |
| Uplink.UplinkContent.EditNombre | src/app/uplink/page.tsx:200 | Typing changes the name and nothing else. |
| Uplink.UplinkContent.EditTelefono | src/app/uplink/page.tsx:212 | Typing changes the phone and nothing else. |
| Uplink.UplinkContent.EditPassword | src/app/uplink/page.tsx:227 | Typing changes the password and nothing else. |
| Uplink.UplinkContent.CheckUser | src/app/uplink/page.tsx:30-54 | An empty email does nothing. Otherwise `loading` ends false and the step becomes 'login' exactly when the lookup did not fail and found a profile. In every other case it becomes 'register'. |
| Uplink.UplinkContent.FinalSubmit | src/app/uplink/page.tsx:56-115 | Registration inserts a client row with the lower-cased email. When the insert succeeds it goes to the dashboard with the typed name and email. Login navigates only when the lookup reports no error and finds a row whose password matches, by role, with the stored name and email. `loading` stays set exactly when it navigates. |
| Uplink.UplinkContent.CorrectEmail | src/app/uplink/page.tsx:245 | Back to the email step, with the password cleared. |
| Uplink.UplinkContent.Submit | src/app/uplink/page.tsx:175 | The email step checks the user. The other two steps submit, with the same results as `FinalSubmit`. |
| Services.FirstNamed | src/hooks/useServices.ts:40-43 | The index of the first service whose normalised slug or name is the search id. No earlier service has either. |
| Services.Names | src/hooks/useServices.ts:40-43 | The `find` test: the normalised slug or name equals the search id. FirstNamed, GetService and SlugIsFound are stated with it. |
| Services.Normalize | src/hooks/useServices.ts:38 | `trim().toLowerCase()`; specified by NormalizeIgnoresCase, GetServiceIgnoresPadding and SharpSIsNotFolded. |
| Services.GetService | src/hooks/useServices.ts:35-44 | `null` exactly on an empty list. `undefined` exactly when the list is non-empty and nothing matches. Otherwise the first matching service. |
| Services.NormalizeIgnoresCase | src/hooks/useServices.ts:38 | Normalising ignores lower-casing, and ignores upper-casing for Latin-1 text without `ß` or `µ`. |
| Services.GetServiceIgnoresCase | src/hooks/useServices.ts:38-43 | An identifier lower-cased finds the same service; upper-cased, too, when it is Latin-1 text without `ß` or `µ`. |
| Services.SharpSIsNotFolded | src/hooks/useServices.ts:38-43 | Asking by the upper-cased name of a service whose name has a `ß` (as "STRASSE" for "straße") does not find it: `toUpperCase` turns `ß` into "SS" and `toLowerCase` does not fold it back. |
| Services.GetServiceIgnoresPadding | src/hooks/useServices.ts:38-43 | White space around the identifier does not change the answer. |
| Services.SlugIsFound | src/hooks/useServices.ts:40-41 | Asking by a service's own slug finds a service. |
| Services.ServicesHook.constructor | src/hooks/useServices.ts:11-13 | The hook starts with no services, loading, and no error. |
| Services.ServicesHook.FetchServices | src/hooks/useServices.ts:15-29 | `loading` always ends false. Rows replace the list. A non-ok response or a thrown error sets the message and keeps the list. |
| SyncUsers.LowerAll | scripts/sync-users.js:43 | The existing emails list is each account's email, lower-cased, in order. |
| SyncUsers.FirstMissing | scripts/sync-users.js:50-51 | The position of the first profile without email: every earlier profile has one. |
| SyncUsers.Missing | scripts/sync-users.js:53 | A profile gets a create when its lower-cased email is not among the existing ones; RequestsAreMissingProfiles states this in both directions. |
| SyncUsers.Request | scripts/sync-users.js:60-68 | The `createUser` argument: the lower-cased email, the temporary password, email confirmed, and the profile's name and role as metadata; SingleRequest and RequestsAreMissingProfiles use it. |
| SyncUsers.Requests | scripts/sync-users.js:50-68 | The creates the loop makes; specified by RequestsAreMissingProfiles, RequestsConcat and SingleRequest. |
| SyncUsers.Synced | scripts/sync-users.js:70-76 | The successes never exceed the creates attempted. |
| SyncUsers.SyncUsersToAuth | scripts/sync-users.js:19-95 | A failed read returns before any create. An account without email throws before the loop. A profile without email ends the run after the creates before it. Otherwise every create is made, and the two counters add up to the creates. |
| SyncUsers.RequestsAreMissingProfiles | scripts/sync-users.js:43-68 | A create is made exactly for the profiles whose lower-cased email is not among the lower-cased existing ones. |
| SyncUsers.DuplicatesBothAttempted | scripts/sync-users.js:43-53 | The existing list never grows in the loop: two profiles with the same new email, in any case, both get a create. |
| SyncUsers.PickTwo | scripts/sync-users.js:50-53 | The two creates of two profiles sit at the positions their prefixes give. |
| SyncUsers.RequestsConcat | scripts/sync-users.js:50-84 | The creates over two runs of profiles are those of each run, in order. |
| SyncUsers.SingleRequest | scripts/sync-users.js:53-68 | One profile gives one create when its email is missing, and none otherwise. |

## Left out

- Realtime transport: channels, subscriptions, `removeChannel` and presence `track` are
  left out. A handler method is what runs when its event arrives. Delivery, ordering and
  timing are not modelled.
- Presence is not linked across the two pages. The staff console listens on
  `online-status-<email>`, while the client tracks `global-customer-presence`. Only the
  handler's effect on `onlineUsers` is modelled, not which channel is ever filled.
- Blob upload and `getPublicUrl`: the public URL is an input, `None` when the upload fails.
- Ids and names from `Date.now()`, `Math.random()` and the store, and the clock: all are
  inputs (`id`, `time`, `newId`).
- `toLocaleTimeString` and the `fecha_hora` ISO timestamp: a log row's time is taken as an
  already formatted string, and the stored row leaves the timestamp out.
- Orderings by `created_at` and `fecha_hora` are taken as the order of the given rows.
  `NewestFirst` states the order where a lemma needs it.
- `setTimeout`: the 800 ms delay in `checkUser` is not modelled, only the state it leaves
  behind.
- Which inputs the access page renders or enables: each `Uplink.UplinkContent` edit method
  requires the step that shows its input (the email only on the email step).
- These UI effects are not modelled: `alert`, `console` output, scrolling, the
  `uploading` / `updatingId` / `projectLoading` flags, the mount flag, JSX, and form
  `required` attributes.
- `router.push`: modelled as the returned `Navigation`. The dashboard's
  `router.replace` after a submit is not modelled.
- `toLowerCase` / `toUpperCase`: only ASCII and Latin-1 letters are mapped, with the three
  Latin-1 letters whose capital lies outside it: `ß` upper-cases to "SS", `ÿ` to `Ÿ`
  (U+0178) and `µ` to Greek `Μ` (U+039C), and those capitals lower-case back to `ÿ` and
  `μ` (U+03BC). No other Unicode case mapping is modelled.
- Outside Latin-1, JavaScript maps letters the model leaves alone: `ı` and `ſ` upper-case
  to `I` and `S`, `İ` lower-cases to two code units, and capital sigma lower-cases by
  context. So `Lower` keeps the length only for the modelled letters.
- Text.LowerUpper: holds only for Latin-1 text without `ß` or `µ` (`FoldsBack`). `toUpperCase`
  turns those two into letters that lower-case differently (LowerUpperExceptions), and
  outside Latin-1 more letters do so and are not modelled.
- Services.NormalizeIgnoresCase: the upper-case half holds only for `FoldsBack` text, for the same reason.
- Services.GetServiceIgnoresCase: the upper-case half holds only for `FoldsBack` text, for the same reason.
- `URLSearchParams` encoding is not modelled: the query is its list of key/value pairs.
- The staff console's user and service administration is not modelled: `fetchUsers`,
  `handleCreateUser`, `handleUpdateUser`, `handleDeleteUser`, `fetchServices` and
  `handleUpdateService`. These are store calls without logic of their own beyond the
  search, which is modelled.
- `ClientDashboard.Dashboard.SendMessage` / `UploadFile` / `SubmitProject`: the store's
  answer is a boolean, and the error object is not modelled.
- Services.GetService: an `undefined` or non-string identifier (`identifier?.toString()`)
  is not modelled, because the identifier is typed as a string.
- Services.ServicesHook.FetchServices: a body that is not an array is not modelled, since
  the rows are given as a list of services.
- SyncUsers.SyncUsersToAuth: each create's outcome is an input, one per profile. A create
  that throws and one that returns an error both count as errors.
- StaffConsole.Console.SelectTab: the tab buttons offer six tabs and not 'solicitudes'.
  The method accepts every tab the state type allows.
- The service pages, the home page, the layout, the API routes (`send-otp`, `send-sms`,
  `services`), the `notify-admin-support` function, `create-admin.tsx` and the store
  client are not part of this model. They are presentation or calls into third-party
  services.
