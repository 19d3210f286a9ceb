# Portfolio admin console — a verified model

The admin console of a portfolio site has a handful of small, deterministic
pieces of logic. This project models them in Dafny and proves their
properties:

- the **dashboard**: feedback status counts, and `processProjectData`, which
  buckets project creation months into a six-month bar chart;
- the **About page** form editors: skills and education entries;
- the **feedback page** row state: a two-level map `id -> action -> state`.
  It also covers the list updates after a request, the guard on sending a
  reply, the sorted fetch, and the status badge;
- the **project** and **experience** forms: initialisation, field changes,
  the technologies parser and its `", "` join, the request payload, and the
  choice of method and URL;
- the four **route handlers** (`/api/about`, `/api/experience`,
  `/api/feedback`, `/api/project`), as operations on in-memory collections;
- the four **document schemas**, as validity predicates. Each collection
  class keeps the invariant that every stored document passed its schema.
  The store rejects a document that does not pass, because it validates on
  save. This holds for the documents the modelled handlers write; the
  update-by-id routes, which are not part of this model, skip that check.

## How the model is built

Each core source file is one module (`Dashboard`, `AboutPage`,
`FeedbackPage`, `ProjectModal`, `ExperienceModal`, `AboutRoute`,
`ExperienceRoute`, `FeedbackRoute`, `ProjectRoute`, and the four `*Model`
modules). Shared helpers model the JavaScript runtime:

- `Text`: `trim`, `split`, `join`, and the decimal rendering of numbers;
- `Lists`: `filter`, and a stable descending sort on a numeric key;
- `Schema`: `required`, `maxlength`, and `x || ""`;
- `Http`: responses and requests;
- `Store`: identifiers.

Modelling choices:

- **Dates.** Dates the dashboard buckets are `(year, month)` pairs in local
  time, with `None` for a missing or invalid date. "Today" is a calendar-day
  parameter. Server timestamps are opaque integers, and "now" is a parameter.
- **Route inputs.** A request body that is not JSON is `None`. A failure of
  the store is a boolean input. Having a session is a boolean input.
- **String lengths.** `maxlength` compares JavaScript's `length`, which
  counts UTF-16 code units. `Schema.JsLength` counts them: one per
  character up to U+FFFF and two above it. Every schema length check uses it.
- **Identifiers.** The store issues the `n`-th identifier of a collection as
  the decimal text of `n`, written `Store.IdFor`. This stands in for
  MongoDB's ObjectId, and it keeps identifiers unique.
- **Handlers.** Each page handler is one atomic step from the old state to
  the new.
- **Imperative code.** It stays imperative:
  - the dashboard's counting `forEach` and its two key-building loops;
  - the `forEach` that fills the reply boxes;
  - the copy-and-`delete` in `clearActionState`;
  - the About PUT's field-by-field assignment;
  - the collections, which are classes whose methods change them.

Places where the code and its evident intent disagree, or where it
behaves other than it looks (the model follows the code):

- **No-data chart window.** With no valid project date, the dashboard builds
  its "last six months" chart from `setMonth` on copies of today's full date.
  On the 29th to the 31st a month without that day rolls over into the next,
  so the six labels can repeat a month and skip another. The data branch
  builds the same kind of window from the first of a month, which shows the
  intent: six consecutive months. See "## Findings".
- **Badge for an inherited key.** The status badge looks the status up in a
  plain object. A status such as `"constructor"` or `"toString"` finds the
  function `Object.prototype` supplies, so the badge has no icon and its
  render throws instead of falling back to "Pending".
- **Project POST errors.** Project POST has no error handling. A body that is
  not JSON, or a document the schema rejects, ends in the framework's bare
  500 reply rather than a JSON error.
- **Schema failures are 500, not 400.** The feedback and experience POST
  handlers answer 400 only for their explicit required-field check. A value
  longer than the schema allows makes the save throw, and the handler then
  answers 500.
- **Experience edit form dates.** `formatDateForInput` calls `format`, which
  `ExperienceModal.js` does not import. The call always throws, and the catch
  returns `""`. So the edit form opens with both date boxes empty.

## Model

| member | source | states |
|---|---|---|
| Dashboard.CountFeedback | src/app/MAIN/dashboard/page.js:157-160 | total is the list length; each of the three counts is the number of records with exactly that status |
| Dashboard.StatusCountsBounded | src/app/MAIN/dashboard/page.js:157-160 | approved + pending + rejected ≤ total, with equality exactly when every status is one of the three (both directions) |
| Dashboard.StoredCountsAddUp | src/app/MAIN/dashboard/page.js:157-160 | for schema-valid records, such as every record the modelled handlers store, the three counts add up to the total |
| Dashboard.FromOrdinal | src/app/MAIN/dashboard/page.js:259-261 | every absolute month index names exactly one (year, month); the basis of `setMonth` normalisation |
| Dashboard.OrdinalInjective | src/app/MAIN/dashboard/page.js:259-261 | distinct (year, month) pairs have distinct month indexes |
| Dashboard.NextMonthOrdinal | src/app/MAIN/dashboard/page.js:258-262 | the next calendar month is one index later, across December into January |
| Dashboard.SetMonth | src/app/MAIN/dashboard/page.js:259-260 | `setMonth(m)` on the first of a month lands on index year*12+m, so negative and ≥12 months wrap into other years |
| Dashboard.WindowAt | src/app/MAIN/dashboard/page.js:257-262 | window entry t is the month 5-t months before the last; the last entry is the end month itself |
| Dashboard.WindowConsecutive | src/app/MAIN/dashboard/page.js:251-262 | the six window months are consecutive calendar months, oldest first, pairwise distinct |
| Dashboard.ParseMonthKey | src/app/MAIN/dashboard/page.js:253-255 | splitting a key and reading back its month name and year gives the month it was made from |
| Dashboard.MonthKeyInjective | src/app/MAIN/dashboard/page.js:219-232 | distinct months have distinct keys, so counts for different months never merge |
| Dashboard.CountInPositive | src/app/MAIN/dashboard/page.js:224-236 | a month some project falls in has a positive count |
| Dashboard.CountInAbsent | src/app/MAIN/dashboard/page.js:263-265 | a month no project falls in counts 0 |
| Dashboard.CountInNone | src/app/MAIN/dashboard/page.js:226-228 | projects without a valid date are in no month |
| Dashboard.LatestMonth | src/app/MAIN/dashboard/page.js:238-255 | the last of the sorted keys: absent exactly when no date is valid; otherwise a month that occurs, and no valid date is later |
| Dashboard.SumCountsOf | src/app/MAIN/dashboard/page.js:282 | the sum of the counts of distinct months is the number of projects in any of them |
| Dashboard.WindowCountsBounded | src/app/MAIN/dashboard/page.js:249-266 | the window's counts add up to at most the number of projects; older ones drop out |
| Dashboard.CountInSetBound | src/app/MAIN/dashboard/page.js:249-266 | projects in a set of months are at most all projects |
| Dashboard.CountInSetAdd | src/app/MAIN/dashboard/page.js:249-266 | adding a new month to a set adds exactly that month's projects |
| Dashboard.CountInSetEmpty | src/app/MAIN/dashboard/page.js:249-266 | no months hold no projects |
| Dashboard.CountOneMore | src/app/MAIN/dashboard/page.js:230-235 | one more dated project increments exactly its month's entry, creating it at 1 |
| Dashboard.CountNoneMore | src/app/MAIN/dashboard/page.js:226-228 | an undated project leaves the counts as they were |
| Dashboard.CountStep | src/app/MAIN/dashboard/page.js:224-236 | one round of the forEach keeps the counts matching the projects seen so far |
| Dashboard.CountByMonth | src/app/MAIN/dashboard/page.js:224-236 | the counting `forEach`: a key exists exactly for months with projects, and holds their number; empty iff no date is valid |
| Dashboard.CountsEmptyIff | src/app/MAIN/dashboard/page.js:251 | the counts object has no keys exactly when no project has a valid date, which picks the branch |
| Dashboard.ZeroAt | src/app/MAIN/dashboard/page.js:263-265 | adding a zero entry keeps every counted month's value |
| Dashboard.WindowKeys | src/app/MAIN/dashboard/page.js:257-266 | the loop for data: six keys of the window ending at the latest month; counted months keep their counts, new keys hold 0 |
| Dashboard.EmptyWindowKeys | src/app/MAIN/dashboard/page.js:270-277 | the no-data loop as written: the six keys of the months `setMonth` reaches from copies of today, all 0 |
| Dashboard.TodayWindowEndsToday | src/app/MAIN/dashboard/page.js:271-274 | on every real calendar day, the last month of the as-written no-data window is today's month |
| Dashboard.TodayWindowAgrees | src/app/MAIN/dashboard/page.js:271-274 | on days 1 to 28 the as-written no-data window is the intended six consecutive months |
| Dashboard.TodayWindowRepeatsMonth | src/app/MAIN/dashboard/page.js:272-274 | on 31 October 2026 the as-written no-data window lists October twice and leaves out September |
| Dashboard.SetMonthOfDay | src/app/MAIN/dashboard/page.js:272-273 | `setMonth` on a full date: a real calendar day stays one; the day is kept when the target month has it, and otherwise the date rolls into the following month |
| Dashboard.TodayWindowAsWritten | src/app/MAIN/dashboard/page.js:270-277 | the no-data window the code builds: six months, each from `setMonth` on a copy of today |
| Dashboard.MonthKey | src/app/MAIN/dashboard/page.js:232 | the `${monthNames[month]} ${year}` key, at least five characters; `ParseMonthKey` reads it back and `MonthKeyInjective` keeps months apart |
| Dashboard.October31st | src/app/MAIN/dashboard/page.js:272-273 | `setMonth` on a copy of 31 October 2026 lands one month late for June and September |
| Dashboard.TodayWindowConsecutive | src/app/MAIN/dashboard/page.js:268-277 | that window is six distinct consecutive months ending at today's month |
| Dashboard.ProcessProjectData | src/app/MAIN/dashboard/page.js:217-285 | six labels and six counts, index-aligned; with data, the labels are the window ending at the latest month, each count is that month's number of projects, and the last is positive; with no valid date, the labels are the as-written window derived from today, ending at today's month and consecutive on days 1 to 28, and every count is 0; the sum is at most the number of projects |
| AboutModel.WithDefaults | src/app/MAIN/about/page.js:24-27 | each missing field becomes `""` or `[]`, and a present field is kept; the About PUT route applies the same rule |
| AboutPage.LoadStoredDocument | src/app/MAIN/about/page.js:22-28 | loading a document that has every field shows exactly that document, empty strings and lists included |
| AboutPage.LoadMissingEverything | src/app/MAIN/about/page.js:22-28 | a reply with no fields loads as the empty form |
| AboutPage.ChangeText | src/app/MAIN/about/page.js:32-35 | only the named text field changes |
| AboutPage.AddSkill | src/app/MAIN/about/page.js:38-47 | the trimmed input is appended and the input cleared iff it is non-empty and not yet listed; otherwise nothing changes |
| AboutPage.AddSkillKeepsDistinct | src/app/MAIN/about/page.js:40-43 | a duplicate-free list stays duplicate-free; an added skill is trimmed and non-empty |
| AboutPage.AddSkillTwice | src/app/MAIN/about/page.js:40-46 | a second press right after the first changes nothing |
| AboutPage.RemoveSkill | src/app/MAIN/about/page.js:49-54 | no entry equal to the skill remains; every other entry keeps its multiplicity; an absent skill changes nothing |
| AboutPage.RemoveAddedSkill | src/app/MAIN/about/page.js:40-54 | removing a skill just added gives back the previous list, in order |
| AboutPage.ChangeEducation | src/app/MAIN/about/page.js:56-60 | only the named field of entry `index` changes; the length and the other entries stay |
| AboutPage.AddEducation | src/app/MAIN/about/page.js:62-71 | a draft with degree and institution is appended and the draft reset to empty; otherwise nothing changes |
| AboutPage.AddedEducationHasRequiredFields | src/app/MAIN/about/page.js:64 | what the page appends meets the schema's required checks on degree and institution |
| AboutPage.RemoveEducation | src/app/MAIN/about/page.js:73-78 | exactly entry `index` goes and the others keep their order; an out-of-range index removes nothing |
| AboutPage.RemoveAddedEducation | src/app/MAIN/about/page.js:62-78 | removing an entry just appended gives back the previous list |
| FeedbackPage.SetActionState | src/app/MAIN/feedback/page.js:107-112 | only `[id][action]` changes: other actions of the id and all other ids stay; no row is left empty |
| FeedbackPage.ClearedByDeletion | src/app/MAIN/feedback/page.js:113-124 | the declarative clear (entry by entry) equals the copy-and-delete: drop the id when its row empties, else replace the row |
| FeedbackPage.ClearActionState | src/app/MAIN/feedback/page.js:113-124 | the method with the copies and the two `delete`s computes exactly the declarative clear |
| FeedbackPage.ClearedEntries | src/app/MAIN/feedback/page.js:113-124 | the id loses the action and is absent when nothing else is left; other ids keep their rows; no row is left empty |
| FeedbackPage.ClearIdempotent | src/app/MAIN/feedback/page.js:113-124 | clearing twice is clearing once |
| FeedbackPage.ClearAbsent | src/app/MAIN/feedback/page.js:113-124 | clearing an action the id does not have, or an absent id, changes nothing |
| FeedbackPage.SetThenClear | src/app/MAIN/feedback/page.js:129-149 | marking an absent action loading and then clearing it restores the state |
| FeedbackPage.RemoveLast | src/app/MAIN/feedback/page.js:116-118 | a row is empty after a delete exactly when it held no other action |
| FeedbackPage.UpdateStatus | src/app/MAIN/feedback/page.js:138 | records with the id take the new status and nothing else changes; other records are unchanged; the length is kept |
| FeedbackPage.UpdateStatusIdempotent | src/app/MAIN/feedback/page.js:138 | setting the same status twice is setting it once |
| FeedbackPage.DeleteById | src/app/MAIN/feedback/page.js:195 | no record with the id remains; every other record keeps its multiplicity; a missing id changes nothing |
| FeedbackPage.DeleteKeepsOrder | src/app/MAIN/feedback/page.js:195 | deleting distributes over concatenation, so the survivors keep their order |
| FeedbackPage.DeleteAfterUpdate | src/app/MAIN/feedback/page.js:138-195 | deleting after a status change leaves what deleting alone leaves |
| FeedbackPage.ReplyToSend | src/app/MAIN/feedback/page.js:157-158 | a reply is sent iff its trimmed text is non-empty and no reply is loading for the id; what is sent is the trimmed text |
| FeedbackPage.ChangeReply | src/app/MAIN/feedback/page.js:210-212 | only the reply box of the id changes |
| FeedbackPage.ApplyReply | src/app/MAIN/feedback/page.js:170-171 | records with the id take the saved reply and time, the others stay; the id's box shows the saved text, the other boxes stay |
| FeedbackPage.IdsOfPermutation | src/app/MAIN/feedback/page.js:88-94 | reordering a list keeps the set of its ids |
| FeedbackPage.RepliesOfLast | src/app/MAIN/feedback/page.js:91-94 | filling record by record gives every id a box, holding the reply (or `""`) of the last record with that id |
| FeedbackPage.InitialReplies | src/app/MAIN/feedback/page.js:91-94 | the `forEach` loop: keys are exactly the ids; each box holds the reply or `""` of the last record with that id |
| FeedbackPage.UniqueIdsOwnReply | src/app/MAIN/feedback/page.js:91-94 | with unique ids, every record's box holds its own reply |
| FeedbackPage.FetchError | src/app/MAIN/feedback/page.js:86-99 | an error is shown exactly when the request did not deliver the data, and its text is never empty |
| FeedbackPage.FetchFeedback | src/app/MAIN/feedback/page.js:80-103 | the action states are reset; on success the list is a permutation of the data, sorted newest first, and the boxes are filled as above; on failure the error is shown, the list is emptied and the boxes are kept |
| FeedbackPage.BadgeFor | src/app/MAIN/feedback/page.js:38-49 | approved and rejected show as such; a name inherited from `Object.prototype` makes the render fail; every other status, unknown ones included, shows as pending |
| FeedbackPage.ValidStatusRenders | src/app/MAIN/feedback/page.js:38-49 | a record that passed the schema always renders a badge, and it is Pending exactly when its status is pending |
| ProjectModal.ParseTechnologies | src/components/ProjectModal.js:96-99 | every parsed entry is trimmed, non-empty and comma-free |
| ProjectModal.ParseAppend | src/components/ProjectModal.js:96-99 | parsing keeps order: the pieces before a comma come first |
| ProjectModal.ParseLeadingWhitespace | src/components/ProjectModal.js:98 | leading whitespace changes no entry |
| ProjectModal.TrimAllFirstPiece | src/components/ProjectModal.js:98 | a first piece that trims like the original leaves the trimmed pieces unchanged |
| ProjectModal.TrimAllFirst | src/components/ProjectModal.js:98 | first pieces that trim alike give the same trimmed list |
| ProjectModal.SplitLeadingChar | src/components/ProjectModal.js:97 | a non-comma character in front joins the first piece |
| ProjectModal.ParseCleanEntry | src/components/ProjectModal.js:96-99 | a single clean entry parses to itself |
| ProjectModal.ParseEmpty | src/components/ProjectModal.js:96-99 | an empty box gives no technologies |
| ProjectModal.JoinCons | src/components/ProjectModal.js:71 | the `", "` join puts a comma and a space between the first entry and the rest |
| ProjectModal.ParseJoin | src/components/ProjectModal.js:71-99 | round trip: joining clean entries with `", "` and parsing gives them back |
| ProjectModal.ParseNormalises | src/components/ProjectModal.js:71-99 | parse, join, parse again gives the first parse |
| ProjectModal.TechnologiesText | src/components/ProjectModal.js:71 | an array is joined (and parses back to itself when clean), a string is kept, a missing value gives `""` |
| ProjectModal.InitForm | src/components/ProjectModal.js:63-81 | an edit form takes each field or `""`; a new form has all six fields empty |
| ProjectModal.ChangeField | src/components/ProjectModal.js:83-85 | only the named field takes the new value |
| ProjectModal.Submit | src/components/ProjectModal.js:87-106 | nothing while saving; PUT to `/api/project/<id>` when editing, POST to `/api/project` when adding; the body is the form with technologies parsed |
| ProjectModal.EditUnchangedKeepsTechnologies | src/components/ProjectModal.js:71-99 | opening a project with clean technologies and saving it unedited sends the same list |
| ExperienceModal.FormatDateForInput | src/components/ExperienceModal.js:65-72 | always `""`: the formatting call throws and the catch answers `""` |
| ExperienceModal.InitForm | src/components/ExperienceModal.js:75-93 | an edit form takes each text field or `""` and isCurrent or false, with both dates empty; a new form is empty with isCurrent false |
| ExperienceModal.SetText | src/components/ExperienceModal.js:97-99 | only the named text field changes |
| ExperienceModal.HandleChange | src/components/ExperienceModal.js:95-103 | a text event changes only its field; checking the box sets isCurrent and clears endDate; unchecking changes isCurrent only |
| ExperienceModal.Payload | src/components/ExperienceModal.js:115-124 | startDate is null iff its box is empty; no endDate key iff current; otherwise endDate is null iff its box is empty; the other fields are copied |
| ExperienceModal.Submit | src/components/ExperienceModal.js:105-132 | nothing while saving; PUT to `/api/experience/<id>` when editing, POST to `/api/experience` when adding; the body is the payload |
| ExperienceModal.CheckedCurrentDropsEndDate | src/components/ExperienceModal.js:99-124 | after checking "current", whatever end date was typed, the payload has no endDate |
| ExperienceModal.UncheckedCurrentSendsNullEndDate | src/components/ExperienceModal.js:99-119 | unchecking after checking leaves the end date empty, which is sent as null |
| ExperienceModal.EditUnchangedSendsNullStart | src/components/ExperienceModal.js:65-117 | saving an opened experience unedited sends a null start date |
| ExperienceRoute.Build | src/app/api/experience/route.js:30-38 | the document takes title and company, `""` for missing location and description, false for a missing isCurrent, null for a missing endDate; it keeps a given endDate; it is None when a date does not convert |
| ExperienceRoute.EndDateKeptWhenCurrent | src/app/api/experience/route.js:35-36 | a current role keeps a given end date; the server does not exclude it |
| ExperienceRoute.PostResponse | src/app/api/experience/route.js:20-44 | 400 with its message iff the body lacks title, company or start date; 201 with the built document iff it is saved, its lengths counted in UTF-16 code units; 500 "Failed to create experience" otherwise |
| ExperienceRoute.PostDefaults | src/app/api/experience/route.js:33-37 | a body with only the required fields, title and company within 100 UTF-16 code units, is created with empty location and description, not current, no end date |
| ExperienceRoute.ExperienceStore.Get | src/app/api/experience/route.js:9-17 | every document, ordered by start date descending; 500 on a store failure; nothing written |
| ExperienceRoute.ExperienceStore.Post | src/app/api/experience/route.js:20-44 | on 201 exactly the returned document is added; otherwise the store is unchanged; all documents stay schema-valid with unique ids |
| FeedbackRoute.Build | src/app/api/feedback/route.js:30-36 | the document takes name and message, `""` for a missing email, status pending, the server's time, no reply |
| FeedbackRoute.SavesIff | src/models/Feedback.js:5-14 | a built document passes the schema exactly when name has at most 100, email at most 100 and message at most 500 UTF-16 code units |
| FeedbackRoute.EmojiMessageRejected | src/models/Feedback.js:7 | a message of 300 emoji, 600 UTF-16 code units, is rejected on save and the POST answers 500 |
| FeedbackRoute.PostResponse | src/app/api/feedback/route.js:19-43 | 400 iff name or message is missing or empty; 201 with the document iff it is saved; 500 "Failed to create feedback" otherwise |
| FeedbackRoute.CreatedIsPending | src/app/api/feedback/route.js:34-35 | a created feedback is pending, stamped with the server's time, and passes the schema |
| FeedbackRoute.BodyStatusIgnored | src/app/api/feedback/route.js:30-36 | the status in the body changes nothing about the reply |
| FeedbackRoute.FeedbackStore.Get | src/app/api/feedback/route.js:8-16 | every document, newest first, each with a legal status because only the modelled POST writes them; 500 on a store failure |
| FeedbackRoute.FeedbackStore.Post | src/app/api/feedback/route.js:19-43 | on 201 exactly the returned document is added; otherwise the store is unchanged; all documents stay schema-valid with unique ids |
| AboutRoute.EmptyAboutValid | src/app/api/about/route.js:15-21 | the document GET creates passes the schema |
| AboutRoute.PutValidIff | src/models/About.js:3-14 | a PUT body is saved exactly when bio has at most 1000, resumeLink at most 500 and each skill at most 50 UTF-16 code units, and each education entry is valid |
| AboutRoute.AboutStore.Get | src/app/api/about/route.js:9-27 | an empty store gets exactly one empty document, which is returned; otherwise the document is returned and nothing is written; 500 on a store failure |
| AboutRoute.AboutStore.Put | src/app/api/about/route.js:30-52 | on 200 the store holds exactly the body with defaults, whatever was there before; otherwise 500 and no change |
| AboutRoute.PutThenGet | src/app/api/about/route.js:9-52 | a GET after a successful PUT returns what the PUT wrote |
| ProjectRoute.Build | src/app/api/project/route.js:20-22 | the document carries the six body fields, `[]` for missing technologies, the server's time |
| ProjectRoute.PostResponse | src/app/api/project/route.js:15-26 | 401 "Unauthorized" without a session; the success message when saved; the framework's bare 500 otherwise |
| ProjectRoute.SessionCheckedFirst | src/app/api/project/route.js:16-20 | without a session the reply does not depend on the body or the store |
| ProjectRoute.FormSubmissionSaved | src/components/ProjectModal.js:94-105 | a new project from the form is saved iff title and description are non-empty; its technologies are the parsed ones, which always pass the schema |
| ProjectRoute.ProjectStore.Get | src/app/api/project/route.js:8-12 | every project, unfiltered, all schema-valid; a store failure, which nothing catches, is the bare 500 |
| ProjectRoute.ProjectStore.Post | src/app/api/project/route.js:15-26 | the store gains the built project exactly when the reply is the success message; without a session it is unchanged |
| Schema.JsLength | src/models/Feedback.js:5 | `s.length` as `maxlength` compares it: UTF-16 code units, between the number of characters and twice it |
| Schema.JsLengthAppend | src/models/Feedback.js:5 | the length of a concatenation is the sum of the lengths |
| Schema.JsLengthBmp | src/models/Feedback.js:5 | the length equals the number of characters exactly when none lies above U+FFFF |
| Schema.JsLengthAstral | src/models/Feedback.js:7 | a text of characters above U+FFFF is twice as long as its number of characters |
| FeedbackModel.FeedbackValid | src/models/Feedback.js:3-14 | name and message required, name and email at most 100, message at most 500, reply at most 500 UTF-16 code units, status one of the enum |
| AboutModel.EducationValid | src/models/About.js:3-7 | degree and institution required and at most 100, year at most 10 UTF-16 code units |
| AboutModel.AboutValid | src/models/About.js:9-17 | bio at most 1000, each skill at most 50, resumeLink at most 500 UTF-16 code units, every education entry valid |
| ExperienceModel.ExperienceValid | src/models/Experience.js:3-14 | title and company required and at most 100, location at most 100, description at most 1000 UTF-16 code units; the start date required |
| ProjectModel.ProjectValid | src/models/Project.js:3-12 | title and description required, each technology a required string, the URLs optional |
| Store.NextIdFresh | src/app/api/feedback/route.js:30-37 | the identifier a new document is saved with has not been issued before, and issuing it adds exactly it |
| Store.AppendNextId | src/app/api/feedback/route.js:30-37 | adding a document with the next identifier keeps the identifiers of a collection unique |
| Text.Trim | src/app/MAIN/about/page.js:40 | `trim`: the result has no whitespace at either end and is no longer than the input |
| Text.TrimSpec | src/app/MAIN/about/page.js:40 | `trim` returns a contiguous slice of the input with only whitespace before and after it, and itself without whitespace at either end |
| Text.TrimChars | src/components/ProjectModal.js:98 | `trim` adds no character: every character of the result is in the input |
| Text.TrimIdempotent | src/app/MAIN/about/page.js:40 | trimming twice is trimming once |
| Text.Split | src/components/ProjectModal.js:97 | `split` on one character: never empty, no piece holds the separator |
| Text.Join | src/components/ProjectModal.js:71 | `join(sep)`: the pieces with the separator between each pair |
| Text.SplitAppend | src/components/ProjectModal.js:97 | splitting at a separator splits each side apart |
| Text.JoinSplit | src/components/ProjectModal.js:71-97 | joining the pieces of a split with the separator gives back the text |
| Text.ParseIntStr | src/app/MAIN/dashboard/page.js:232-255 | reading back the decimal text of a year gives the year |
| Lists.SortDescSorted | src/app/MAIN/feedback/page.js:88 | the sort orders by key, largest first |
| Lists.SortDesc | src/app/MAIN/feedback/page.js:88 | the sort is a permutation of its input |
| Lists.SortDescOfSorted | src/app/MAIN/feedback/page.js:88 | an already sorted list is returned unchanged |
| Lists.Filter | src/app/MAIN/about/page.js:52 | `filter`: no longer than the input, and every kept element passes and comes from the input |
| Lists.FilterAppend | src/app/MAIN/feedback/page.js:195 | filtering keeps order |
| Lists.FilterMultiset | src/app/MAIN/about/page.js:52 | filtering keeps each passing element as often as it occurs, and no other |

## Left out

- `fetch`, `connectDB` and the database driver are left out. Collections are
  sequences, and a failure of the store is a boolean input. A `connectDB`
  failure, which happens before each handler's `try`, is not modelled.
- Concurrency is left out. This covers `Promise.all` on the dashboard, the
  race between two first GETs of the About document, and interleaved
  requests.
- The session lookup is left out. Having a session is a boolean.
- JavaScript `Date` is left out: parsing, local time and `toISOString`. The
  dashboard gets each project's local (year, month), or `None` when the date
  is missing or invalid. A body date is its text together with the instant it
  converts to.
- Dashboard.LatestMonth: this takes the latest month, which the sort by
  `new Date("Mon 1, YYYY")` finds when that text parses back to the month.
  Years below 100 and negative years, where that parse goes wrong, are not
  modelled.
- Feedback page error states are not modelled. The `finally` blocks of the
  status and reply handlers read an earlier copy of `actionStates`, so a
  `Failed` entry is cleared again right away. Only the loading-then-clear
  path is modelled, by `FeedbackPage.SetThenClear`. No claim is made that an
  error persists.
- `handleEducationChange` copies `formData` rather than the latest state.
  Each handler is one atomic step.
- AboutPage.ChangeEducation: it requires an index inside the list. The page
  only calls it from a rendered entry. An out-of-range index, which makes a
  sparse array in JavaScript, is not modelled.
- Body fields of other JSON types are left out. The model takes body fields
  as strings, lists or booleans. A number or object, which the store would
  cast or reject, is not modelled. For an About PUT, a missing field of an
  education entry is the empty string, which the schema rejects alike.
- Lists.SortDesc: the database sort leaves the order of equal keys open. The
  model keeps equal keys in their stored order.
- ExperienceModal.Payload: `new Date(x).toISOString()` is the opaque
  `IsoDate(x)`. An invalid date, which throws before the request is sent, is
  not modelled.
- ExperienceModal.FormatDateForInput: it does not produce a `yyyy-MM-dd`
  text, because the function it calls is not imported. The model says what
  the code does.
- Rendering is left out: JSX, motion variants, charts and styles.
  `window.confirm` before a delete is also left out, and a delete is modelled
  after confirmation.
- These routes and files are not part of this model: the PUT and DELETE
  routes by id, the Sidebar, the login page, the experience and project list
  pages, admin seeding, and AdminUser. Leaving out the update-by-id routes
  has a cost: they call `findByIdAndUpdate` without `runValidators`
  (src/app/api/feedback/[id]/route.js:25,
  src/app/api/experience/[id]/route.js:25,
  src/app/api/project/[id]/route.js:15). So the real collections can hold a
  feedback status outside the three, or text longer than the schema allows,
  and GET returns it. The invariant that every stored document passed its
  schema, and what is built on it, covers only documents the modelled
  handlers wrote.
- FeedbackPage.FetchError: the text of a thrown error is the exception's
  message, taken as an input; which messages `fetch` and `res.json` produce
  is not modelled. A reply with `ok` but a body that is not an array is
  taken as a thrown error.
- The feedback page's page-wide `loading` flag, which `fetchFeedback` sets
  and its `finally` clears, is not modelled: it only chooses what is rendered.

## Findings

| source | as written | input that shows it | evidently intended | confidence | as-written member | corrected member |
|---|---|---|---|---|---|---|
| src/app/MAIN/dashboard/page.js:269-274 | with no valid project dates, each window month is `setMonth(today.getMonth() - i)` on a copy of today's full date, so a day past the target month's length overflows into the next month | today = 31 October 2026: the window is May, Jul, Jul, Aug, Oct, Oct; June and September are missing | the six consecutive months ending at today's month, as the data branch builds them from the first of the month | not executed | Dashboard.TodayWindowRepeatsMonth | Dashboard.TodayWindowConsecutive |

`Dashboard.ProcessProjectData` follows the code: its no-data branch is the
as-written window. The corrected window `Dashboard.TodayWindow` is proved
consecutive, and `Dashboard.TodayWindowAgrees` proves the two equal on days
1 to 28, which `ProcessProjectData` states for its labels.
