# Eleven Star Construction: the project catalogue and quote request, in Dafny

Eleven Star Construction's website lists the company's projects and takes
quote requests. This model covers the logic behind that:

- the project record and the slug its id is made from (`generateId`);
- the JSON file store that stands in when the hosted database is not
  configured or fails;
- the `GET` and `POST` handlers of `/api/projects`, with the hosted-database
  path and the JSON fallback;
- the conversion between local image paths and Cloudinary public ids, and
  which source `CloudinaryImage` renders;
- the state transitions of the admin project form;
- the projects page: its category filter, its fetch with the built-in
  fallback list, and that list's ids;
- the quote endpoint: the environment check, the recipient list, the message
  and the response it sends.

Each source module is one Dafny module, in a file of its own:

| file | module | models |
|---|---|---|
| `wrappers.dfy` | `Wrappers` | `Option` (absent vs present) and `Result` |
| `text.dfy` | `Text` | the JavaScript string operations used: `trim`, `toLowerCase`, `toUpperCase`, `startsWith`, `includes`, `indexOf`, `replace` with a string pattern, `split`/`join` on one character, number printing |
| `slug.dfy` | `Slug` | `generateId` |
| `records.dfy` | `Records` | `Project`, `DatabaseProject`, `formatProject`, the details filter, the Supabase client and `isSupabaseConfigured` |
| `file_store.dfy` | `FileStore` | `readProjectsFromJSON` and `writeProjectsToJSON` |
| `projects_api.dfy` | `ProjectsApi` | `GET` and `POST` of `/api/projects` |
| `cloudinary.dfy` | `Cloudinary` | `getCloudinaryPublicId`, `isCloudinaryPublicId`, `isCloudinaryEnabled`, `getImageSrc` |
| `cloudinary_image.dfy` | `CloudinaryImage` | the choice `CloudinaryImage` makes: source, size and quality |
| `project_form.dfy` | `ProjectForm` | `ProjectForm`'s handlers, validity test and submission |
| `projects_page.dfy` | `ProjectsPage` | the projects page's filter, fetch and fallback list |
| `quote_api.dfy` | `QuoteApi` | `POST /api/quote` |

Everything outside the process becomes a parameter:

- the environment variables;
- the clock (`now`);
- the contents of `data/projects.json`, and whether reading or writing it
  fails;
- the hosted database's answers;
- the upload widget's result;
- the outcome of the page's `fetch`;
- the mail service's status code, or the error it throws.

Strings are `seq<char>`.

- Whitespace is the exact set JavaScript's `\s` and `trim` use.
- `toLowerCase` and `toUpperCase` map ASCII letters only.

## Model

| member | source | states |
|---|---|---|
| Text.TrimEmptyIffBlank | app/api/projects/route.ts:67 | `d.trim() !== ''` holds exactly when `d` has a non-whitespace character |
| Text.JoinSplit | app/api/quote/route.ts:25 | splitting on a separator loses nothing: joining the pieces gives the input back |
| Text.SplitJoin | app/api/quote/route.ts:25 | separator-free pieces, joined and split again, come back unchanged |
| Text.NatToStringRoundTrip | app/api/quote/route.ts:57 | the decimal text of a status code reads back as that code |
| Slug.GenerateId | lib/projects-json.ts:55-57 | the id made from any title contains only `a-z`, `0-9` and `-`, and is no longer than the title |
| Slug.GenerateIdIdempotent | lib/projects-json.ts:55-57 | making an id from an id changes nothing |
| Slug.GenerateIdFixpoint | lib/projects-json.ts:55-57 | a string is left unchanged exactly when it is already a slug |
| Slug.HyphenateAppend | lib/projects-json.ts:56 | replacing whitespace runs works piecewise across a split whose first part is empty or does not end in whitespace |
| Slug.GenerateIdAppend | lib/projects-json.ts:56 | the id of a concatenation is the concatenation of the ids, when the first part does not end in whitespace |
| Slug.GenerateIdOfWords | lib/projects-json.ts:56 | a title of space-separated capitalised words becomes the lower-cased words joined by `-` |
| Slug.DrivewayExample | lib/projects-json.ts:56 | punctuation is dropped: "Driveway Asphalting!" becomes `driveway-asphalting` |
| Slug.GenerateIdNotInjective | lib/projects-json.ts:55-57 | two different titles can share an id ("A!" and "A") |
| Records.FormatProject | lib/supabase.ts:33-43 | every column of a row reaches the API record, `created_at`/`updated_at` renamed |
| Records.FormatProjectInjective | lib/supabase.ts:33-43 | two rows give the same API record exactly when they are equal |
| Records.FormatProjectRoundTrip | lib/supabase.ts:33-43 | converting a row and converting back gives the row |
| Records.NonBlank | app/api/projects/route.ts:67 | the kept details all have non-whitespace text |
| Records.NonBlankMembers | app/api/projects/route.ts:67 | a detail is kept exactly when it was given and is not blank |
| Records.NonBlankAppend | app/api/projects/route.ts:67 | filtering distributes over concatenation, so the order of kept details is the given order |
| Records.NonBlankIdempotent | app/api/projects/route.ts:67 | filtering twice is filtering once |
| Records.NonBlankFixpoint | app/api/projects/route.ts:67 | the filter changes nothing exactly when no detail is blank |
| Records.SupabaseClient | lib/supabase.ts:9-12 | a client exists exactly when both the URL and the key are set and non-empty, and it uses them |
| Records.IsSupabaseConfigured | lib/supabase.ts:15-17 | the configuration test: a client exists and both the URL and the key are non-empty |
| Records.ConfiguredIffClient | lib/supabase.ts:15-17 | the database counts as configured exactly when the client exists, that is when URL and key are both non-empty |
| FileStore.ReadProjects | lib/projects-json.ts:29-41 | a missing file, a file whose text does not parse and a file that cannot be read all read as no projects; otherwise exactly the stored list is returned |
| FileStore.WriteProjects | lib/projects-json.ts:44-52 | a write fails exactly when writing is refused, leaving the file as it was; otherwise the file holds the list, whatever it held before, missing or unparsable included |
| FileStore.ReadAfterWrite | lib/projects-json.ts:29-52 | when reading and writing work, a write succeeds and reading it back gives exactly the list written, even over a missing or corrupt file |
| FileStore.RewriteUnchanged | lib/projects-json.ts:29-52 | writing back what was read leaves a readable file unchanged |
| ProjectsApi.Get | app/api/projects/route.ts:13-46 | the answer is always 200; with a configured database that returns rows it is those rows converted in order, otherwise the JSON file's projects |
| ProjectsApi.GetUnconfiguredIgnoresDatabase | app/api/projects/route.ts:6-11 | without credentials the database is never consulted |
| ProjectsApi.NewProject | app/api/projects/route.ts:58-71 | the new record's id is the slug of its title, the text fields are copied, the details are exactly the non-blank ones, the images are the given list or none, and both timestamps are the creation time |
| ProjectsApi.InsertRow | app/api/projects/route.ts:89-99 | the row inserted into the database, renamed to the API's fields, is exactly the record the JSON path would store |
| ProjectsApi.InsertRowMatchesNewProject | app/api/projects/route.ts:89-109 | the row sent to the database, read back, is the record the JSON path would store |
| ProjectsApi.FindByTitle | app/api/projects/route.ts:124-127 | finds a project whose title matches ignoring case, and finds none exactly when no title matches |
| ProjectsApi.DatabaseCreate | app/api/projects/route.ts:73-118 | the database decides exactly when it is configured, its title check answered, and either a title matched or the insert returned a row; a match gives 400 and otherwise the inserted row is returned with 201 |
| ProjectsApi.JsonCreate | app/api/projects/route.ts:120-132 | a duplicate title gives 400, a failed write 500, and only a 201 changes the file, by appending the new project |
| ProjectsApi.Post | app/api/projects/route.ts:48-137 | only 201, 400 or 500 are answered, and the file changes only for a valid body, by appending exactly the new project |
| ProjectsApi.PostFallbackTransparent | app/api/projects/route.ts:73-132 | when the database is absent or fails, the handler behaves as the JSON-only path |
| ProjectsApi.PostMissingFields | app/api/projects/route.ts:53-56 | a body missing title, category, description or completion gets 400 and changes nothing |
| ProjectsApi.PostMissingDetails | app/api/projects/route.ts:67 | a body without `details` throws and gets 500, changing nothing |
| ProjectsApi.PostDatabaseDuplicate | app/api/projects/route.ts:78-86 | a title the database already holds, ignoring case, gets 400 |
| ProjectsApi.PostJsonCreates | app/api/projects/route.ts:58-71 | a new title is appended to the file and returned with 201: slug id, non-blank details, the given images or none |
| ProjectsApi.PostJsonDuplicate | app/api/projects/route.ts:124-127 | a title already in the file, ignoring case, gets 400 and the file is unchanged |
| ProjectsApi.PostJsonWriteFails | app/api/projects/route.ts:129-136 | a failed write answers 500 and the file is unchanged |
| ProjectsApi.PostCaseInsensitiveTwice | app/api/projects/route.ts:124-132 | after one title is created, the same title in any letter case is refused |
| ProjectsApi.PostAfterReadFaultDropsRecords | app/api/projects/route.ts:122-131 | when the file cannot be read or parsed, a create overwrites it with only the new project |
| ProjectsApi.PostRepairsUnparsableFile | app/api/projects/route.ts:122-132 | after a create over an unparsable file, the file reads back as the new project alone, so the same title sent again is refused with 400 |
| ProjectsApi.PostDatabaseCreates | app/api/projects/route.ts:73-118 | with the database configured, no title match and the insert returning a row, the answer is 201 with that row renamed and the file untouched |
| ProjectsApi.PostAllowsSharedIds | app/api/projects/route.ts:124-132 | titles that differ only in punctuation are both stored, under the same id |
| Cloudinary.ExtensionLength | lib/cloudinary.ts:22 | the matched suffix is 5 characters exactly for `.webp` and `.jpeg`, 4 exactly for `.jpg`, `.png` and `.gif`, in any letter case, and empty exactly when none ends the path |
| Cloudinary.StripExtension | lib/cloudinary.ts:22 | `.webp`/`.jpeg` leave the path without its last 5 characters, `.jpg`/`.png`/`.gif` without its last 4, and any other path is unchanged |
| Cloudinary.StripImageExtension | lib/cloudinary.ts:22 | any base followed by `.` and one of the five extensions, in any case, strips back to the base |
| Cloudinary.GetCloudinaryPublicId | lib/cloudinary.ts:18-32 | a path that is neither absolute nor `http` is returned without its image extension; any other path has its first `/images/` removed, then its extension, and gets the `eleven-star/` folder |
| Cloudinary.IsCloudinaryPublicId | lib/cloudinary.ts:37-39 | a public id is a path that starts with none of `/`, `http` and `blob:` |
| Cloudinary.PublicIdsOnlyLoseExtension | lib/cloudinary.ts:18-39 | every path `isCloudinaryPublicId` accepts is converted by dropping its extension alone, and every project-folder id is accepted |
| Cloudinary.ProjectFolderTestRedundant | lib/cloudinary.ts:20 | every `eleven-star/` path already passes the second test, so the first changes nothing |
| Cloudinary.BlobTestsDisagree | lib/cloudinary.ts:18-39 | a `blob:` URL is not an id by `isCloudinaryPublicId`, yet the conversion keeps it as one |
| Cloudinary.LocalImageToId | lib/cloudinary.ts:25-31 | `/images/<rest>.<ext>` becomes `eleven-star/<rest>` for each of the five extensions in any letter case |
| Cloudinary.LocalPathToId | lib/cloudinary.ts:27-31 | `/images/<rest>.webp` becomes `eleven-star/<rest>` |
| Cloudinary.AbsolutePathOutsideImages | lib/cloudinary.ts:25-31 | an absolute path without `/images/` keeps its leading `/` under the project folder: `eleven-star//…` |
| Cloudinary.ProjectIdUnchanged | lib/cloudinary.ts:20-22 | an id already in the project folder and without an extension is returned unchanged |
| Cloudinary.OnlyLastExtension | lib/cloudinary.ts:18-22 | for any base that is neither absolute nor `http`, only the final image extension is removed, whatever the base itself ends in |
| Cloudinary.UpperCaseExtension | lib/cloudinary.ts:22 | extensions are matched ignoring case (`.WEBP`) |
| Cloudinary.MixedCaseExtension | lib/cloudinary.ts:22 | extensions are matched ignoring case (`.Jpg`) |
| Cloudinary.GetImageSrc | lib/cloudinary.ts:51-56 | with Cloudinary enabled the public id is used, otherwise the local path unchanged |
| Cloudinary.IsCloudinaryEnabled | lib/cloudinary.ts:44-46 | Cloudinary is used when the configured cloud name is non-empty |
| Cloudinary.EnabledIffCloudNameSet | lib/cloudinary.ts:3-4 | Cloudinary is enabled exactly when the cloud name is set and non-empty |
| CloudinaryImage.LocalSrc | components/CloudinaryImage.tsx:87-91 | local, remote and `blob:` sources are kept; a public id has its first `eleven-star/` replaced by `/images/` and gains `.webp` |
| CloudinaryImage.LocalSrcOfProjectId | components/CloudinaryImage.tsx:87-91 | a project-folder id `eleven-star/<rest>` is shown from `/images/<rest>.webp` |
| CloudinaryImage.LocalSrcOfBareId | components/CloudinaryImage.tsx:87-91 | a public id without the project folder is shown from itself plus `.webp`, with no `/images/` prefix |
| CloudinaryImage.Render | components/CloudinaryImage.tsx:44-107 | Cloudinary delivery happens exactly when it is enabled; sizes default to 800×600 unless `fill`; locally the quality is the given number or 90 |
| CloudinaryImage.LocalSrcRoundTrip | components/CloudinaryImage.tsx:87-91 | converting a project-folder id to a local path and back gives the id |
| CloudinaryImage.LocalPathRoundTrip | components/CloudinaryImage.tsx:87-91 | converting a local `.webp` path to an id and back gives the path |
| CloudinaryImage.LocalSrcKeepsPaths | components/CloudinaryImage.tsx:88 | absolute, `http` and `blob:` sources are shown as given |
| ProjectForm.InitialForm | components/ProjectForm.tsx:43-50 | a new project starts empty with one blank detail line; an edited one starts from its values |
| ProjectForm.HandleInputChange | components/ProjectForm.tsx:54-59 | typing in a field sets that field only |
| ProjectForm.HandleDetailChange | components/ProjectForm.tsx:61-68 | editing detail `i` changes that line only |
| ProjectForm.AddDetail | components/ProjectForm.tsx:70-75 | adding a detail appends one empty line and keeps the others |
| ProjectForm.RemoveDetail | components/ProjectForm.tsx:77-85 | the last remaining detail line cannot be removed |
| ProjectForm.WithoutIsRemoval | components/ProjectForm.tsx:80 | filtering out index `i` removes exactly the element at `i` |
| ProjectForm.RemoveDetailRemovesOne | components/ProjectForm.tsx:77-85 | with more than one line, removing line `i` removes exactly that line |
| ProjectForm.UploadedId | components/ProjectForm.tsx:88-100 | an upload yields an id exactly when the event is `success` and the info object carries a non-empty public id |
| ProjectForm.HandleCloudinaryUpload | components/ProjectForm.tsx:88-100 | a successful upload appends its id to the images; any other result changes nothing |
| ProjectForm.RemoveImage | components/ProjectForm.tsx:102-108 | removing an image changes the image list only, by filtering out the given index |
| ProjectForm.RemoveImageRemovesOne | components/ProjectForm.tsx:102-108 | removing image `i` removes exactly that image |
| ProjectForm.HandleSubmit | components/ProjectForm.tsx:110-124 | the submission copies the fields and images, and its details are the non-blank ones in their order |
| ProjectForm.IsCloudinaryImageAgrees | components/ProjectForm.tsx:129-131 | the form's test for an uploaded image is the library's `isCloudinaryPublicId` |
| ProjectForm.SubmissionSurvivesServerFilter | app/admin/page.tsx:93-104 | what a valid form submits passes the server's checks, and the server keeps the same details, images and title |
| ProjectForm.IsFormValid | components/ProjectForm.tsx:126 | the form is valid when title, category, description and completion are all non-empty |
| ProjectForm.ValidIffServerAccepts | components/ProjectForm.tsx:126 | the form's submit button is enabled exactly when the server will accept the required fields |
| ProjectsPage.Shows | app/projects/page.tsx:249-266 | the filter test: ALL and unknown filters show everything; the others look for their keyword in the upper-cased category |
| ProjectsPage.FilterProjects | app/projects/page.tsx:249-266 | every project the filter keeps is shown under the selected category |
| ProjectsPage.FilterIsOrderedSelection | app/projects/page.tsx:249-266 | the filter keeps projects in their order, and keeps a project exactly when its category matches |
| ProjectsPage.FilterShowingAllIsIdentity | app/projects/page.tsx:249-266 | when every project matches, the filter returns the list unchanged |
| ProjectsPage.FilterAllKeepsEverything | app/projects/page.tsx:249-266 | "ALL", and any filter the page does not know, show every project |
| ProjectsPage.FilterOfOne | app/projects/page.tsx:249-266 | a single project is kept exactly when its category shows |
| ProjectsPage.FilterAppend | app/projects/page.tsx:249-266 | filtering a concatenation concatenates the filtered parts, so order and repeated projects are kept |
| ProjectsPage.FilterIdempotent | app/projects/page.tsx:249-266 | filtering twice is filtering once |
| ProjectsPage.ShowsIgnoresCase | app/projects/page.tsx:252 | categories are compared after upper-casing, so their letter case does not matter |
| ProjectsPage.ResidentialCategoryFilters | app/projects/page.tsx:253-255 | "Residential Construction" is shown under RESIDENTIAL |
| ProjectsPage.CommercialCategoryFilters | app/projects/page.tsx:256-258 | "Commercial Construction" is shown under COMMERCIAL |
| ProjectsPage.RenovationCategoryFilters | app/projects/page.tsx:259-261 | "Renovations & Remodeling" is shown under RENOVATIONS |
| ProjectsPage.RoadCategoryShowsUnderRoads | app/projects/page.tsx:262-264 | "Road Construction" is shown under ROADS |
| ProjectsPage.FormCategoriesUnderTheirFilters | components/ProjectForm.tsx:33-40 | four of the form's six categories are shown under their own filter button |
| ProjectsPage.OnlyUnderAll | app/projects/page.tsx:249-266 | a category that names none of the keywords is shown under ALL and under no other button |
| ProjectsPage.LandSubdivisionOnlyUnderAll | components/ProjectForm.tsx:37 | the form's "Land Subdivision" is shown only under ALL: no filter button selects it |
| ProjectsPage.LandscapingOnlyUnderAll | components/ProjectForm.tsx:39 | the form's "Landscaping & Outdoor Living" is shown only under ALL: no filter button selects it |
| ProjectsPage.AfterFetchWith | app/projects/page.tsx:126-149 | after the fetch the page is no longer loading; a good answer is shown as sent; a bad status shows the built-in list; a throw shows the built-in list and an error |
| ProjectsPage.ToCards | app/projects/page.tsx:133 | the page shows the API's projects one for one |
| ProjectsPage.PageShowsListAnswer | app/projects/page.tsx:126-149 | because `GET /api/projects` always answers 200, the page shows exactly its projects, with no error |
| ProjectsPage.FallbackProjects | app/projects/page.tsx:22-117 | the five built-in projects shown when the API cannot be reached |
| ProjectsPage.FallbackIdsAreGenerated | app/projects/page.tsx:22-117 | every built-in project's id is `generateId` of its title |
| QuoteApi.SplitRecipients | app/api/quote/route.ts:25-31 | the copy list, when present, is non-empty |
| QuoteApi.RecipientsOfPieces | app/api/quote/route.ts:25-31 | the primary recipient is the first comma-separated piece trimmed, and the others trimmed are copied, or nothing when there are none |
| QuoteApi.RecipientsOfList | app/api/quote/route.ts:25-31 | for a comma-joined list of addresses the first is the recipient and the rest, in order, are copied |
| QuoteApi.SingleRecipient | app/api/quote/route.ts:25-31 | a single address gets no copy list |
| QuoteApi.EmptyCopyKept | app/api/quote/route.ts:25-31 | an empty entry between two commas is copied as an empty address |
| QuoteApi.Subject | app/api/quote/route.ts:33 | the subject is the fixed prefix, the name, ` - ` and the service, each readable at its place |
| QuoteApi.SubjectInjective | app/api/quote/route.ts:33 | for one service the subject identifies the requester's name, and for one name the service |
| QuoteApi.TextBody | app/api/quote/route.ts:34-40 | the plain-text body, one indented labelled line per field |
| QuoteApi.TextBodyCarriesFields | app/api/quote/route.ts:34-40 | each field, or `undefined` when absent, appears in the plain-text body right after its label |
| QuoteApi.HtmlBody | app/api/quote/route.ts:41-49 | the HTML body, one paragraph per field |
| QuoteApi.HtmlBodyCarriesName | app/api/quote/route.ts:43 | the name appears in the HTML body inside its labelled paragraph |
| QuoteApi.NameMarkupNotEscaped | app/api/quote/route.ts:41-49 | field values are not escaped: any markup in the name reaches the HTML body as is |
| QuoteApi.BuildMessage | app/api/quote/route.ts:25-49 | the message goes to the split recipients from the configured sender, with the name and service in the subject |
| QuoteApi.Post | app/api/quote/route.ts:9-81 | success (200) exactly when the environment is complete, the body is read and the mail service answers 202; a message is handed over exactly when the environment and body are; each failure gives 500 and its details |
| QuoteApi.MissingEnvIgnoresRequest | app/api/quote/route.ts:11-19 | with a variable missing the answer is the same whatever was sent, and nothing is sent |
| QuoteApi.StatusCodeErrorInjective | app/api/quote/route.ts:57 | the failure details for different status codes differ |
| QuoteApi.OnlyAcceptedSucceeds | app/api/quote/route.ts:56-60 | any status other than 202, 200 included, is reported as a failure naming the status |

## Left out

- The per-id route (`app/api/projects/[id]/route.ts`): reading, updating and deleting single projects are not part of this model.
- File-system I/O and the JSON text format: the file is an abstract store. It is missing, holds text that does not parse, or holds a list of projects, and two flags say whether reading or writing fails. JSON that parses but is not an array of projects is not modelled. `ensureDataDir` is not modelled.
- FileStore.WriteProjects: a failed write is atomic (the file is unchanged). The real file could be left partly written.
- Concurrency: two requests racing on the file or on the database are not modelled. Each handler runs alone.
- Full Unicode case mapping: `toLowerCase`/`toUpperCase` map ASCII letters only.
- ProjectsApi.DatabaseCreate: the database's `ilike` title check is an oracle parameter (the number of matching rows). Its pattern semantics, where `%` and `_` in a title are wildcards, are not modelled.
- ProjectsApi.Post: body values are strings or absent. Non-string JSON values (numbers, arrays where strings are expected) are not modelled.
- ProjectsApi.Get: the 500 branch of `GET` cannot be reached, because the JSON read never throws. The model therefore answers 200 always.
- ProjectsApi.Post: the request's JSON parse failure is a single `Unparsable` case answered with 500. The thrown value is not modelled.
- QuoteApi.Post: body field values are strings or absent (absent prints `undefined`). JSON `null` (printed `null`), numbers (printed as their digits) and arrays (printed as their elements joined by commas), which the route accepts and interpolates as well, are not modelled.
- SendGrid's `setApiKey`, the real sending and all console logging: the mail service's result (a status code or a thrown value) is a parameter.
- Zod schemas in the form components: the model uses the checks the handlers perform.
- Presentational code (layout, dialogs, carousels, animations, `RulerProgressBar`) and the `loading` and dialog state beyond the fetch's loading flag.
- The admin password gate and the admin page's list plumbing: only the body it posts (`JSON.stringify` of the form's submission) is modelled.
- ProjectForm.HandleDetailChange: requires an in-range index. The form only passes indices of rendered lines; an out-of-range index would make a sparse array in JavaScript.
- CloudinaryImage.Render: `width`/`height` are integers or absent. `NaN` and other falsy non-zero values are not modelled. Props passed through to the image component (`alt`, `sizes`, `crop`, `gravity`, `priority`, `className`) are not modelled.
- The select and button widgets that show `Categories` and `Filters` are not modelled; the lemmas relating the two lists are.
- `imagePresets`, `apiKey`, `apiSecret` and `uploadPreset` in `lib/cloudinary.ts` are configuration data with no logic.
