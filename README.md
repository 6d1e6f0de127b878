# Portfolio content store, in Dafny

This project models the logic core of a personal portfolio site built with
Next.js. The site keeps its content in flat JSON documents (work entries,
projects, links and tools) and MDX blog posts. A password-gated admin
dashboard edits those documents through four small REST handlers. The public
pages read the same documents, rank entries by a date found in free text, and
parse a few small text formats.

The model covers these parts:

- **The four document stores** (`WorkApi`, `ProjectsApi`, `LinksApi`,
  `ToolsApi`). Each is a class holding the parsed document, in which `None`
  stands for a missing or unparsable file. GET, POST, DELETE and PUT are
  methods that reply with a status and a payload and rewrite the document.
  - Work entries and projects get a slug derived from their title. PUT on
    them is a shallow merge of the request body into the stored entry.
  - Links are keyed by title and tools by name. PUT on them replaces the
    record wholesale.
- **The date ordinal and the ranking** (`Chronology`, `Sorting`,
  `Ordering`). Both regular expressions are scanned by hand: the bare
  `word, white space, four digits` and the parenthesised one. They give the
  ordinal `year * 12 + month`, plus 100000 for "present". `Sorting` defines
  the stable descending sort that `Array.prototype.sort` performs, with
  comparator `b - a` on this ordinal, and characterises it uniquely.
- **Undefined fields.** A JavaScript comparison on an entry without its
  `period` or `role` field throws TypeError. That happens as soon as two
  entries are compared, and is modelled as an explicit failure
  (`PeriodSortThrows`, `RoleSortThrows`).
- **The slug deriver** (`Slug`).
- **The page readers** (`WorkLib`, `ProjectsLib`, `Blog`, `ProjectPage`,
  `HomePage`). These cover the sorted readers and lookups by slug, the blog
  listing with its hand-scanned frontmatter block, the role/period splitter
  of the projects page, and the two-item summary on the home page.
- **The admin dashboard** (`DashboardForms`, `Dashboard`).
  - `DashboardForms` covers the tag list parser and its join, the bullet
    text area, the forms and the payloads they send.
  - `Dashboard` is a class whose fields are the page's React state. Its
    methods are the handlers: refreshing every list, opening and closing the
    editors, the PUT-or-POST choice of each submit, and the index-based list
    editors.
- **The navigation rules** (`Middleware`, `MobileHeader`, `Navbar`,
  `PostSearch`). These cover the request gate, the page initial and the
  active entry, the keyboard shortcuts, and the search-and-select state of
  the blog list.

Strings are `seq<char>`. Lower-casing is ASCII-only. White space is the set
JavaScript's `\s` and `trim` recognise. A JSON field that is absent from a
stored record or a request body is `None`.

## Model

| member | source | states |
|---|---|---|
| WorkApi.WorkStore.Get | src/app/api/work/route.ts:7-24 | GET answers the stored items in stored order, unsorted, and no items when the document is missing or unparsable |
| WorkApi.WorkStore.Post | src/app/api/work/route.ts:27-51 | a body without a title fails (TypeError) and writes nothing; otherwise exactly the new entry is appended after the old items and answered with 201 |
| Content.NewWork | src/app/api/work/route.ts:32-45 | the stored entry has the derived slug, defaults href/logo to "" when falsy and tags/projects to [] when absent, copies role, period and description, and falls back to the description when longDescription is falsy |
| WorkApi.WorkStore.Delete | src/app/api/work/route.ts:54-67 | without a (truthy) slug: 400 and no write; otherwise success, and the document becomes the items without that slug |
| WorkApi.WithoutSlug | src/app/api/work/route.ts:63 | exactly the items whose slug differs are kept, and none with the slug remains |
| WorkApi.DeleteIdempotent | src/app/api/work/route.ts:62-66 | a repeated DELETE of the same slug changes nothing |
| WorkApi.DeleteAbsentSlug | src/app/api/work/route.ts:62-66 | DELETE of a slug no item has keeps the items unchanged and in order |
| WorkApi.DeleteAfterPost | src/app/api/work/route.ts:62-66 | deleting the slug of a just-posted entry removes it along with every older entry of that slug; also src/app/api/work/route.ts:32-48 |
| WorkApi.WorkStore.Put | src/app/api/work/route.ts:70-83 | no item with the body's slug: 404 and no write; otherwise the first match becomes the body merged over it, and it is answered |
| WorkApi.Updated | src/app/api/work/route.ts:79 | the merge keeps the number of items |
| WorkApi.PutKeepsOthersAndSlugs | src/app/api/work/route.ts:74-79 | PUT changes only the first matched index, every field the body gives overrides and every other is kept, and every slug is unchanged |
| WorkApi.PutIdempotent | src/app/api/work/route.ts:74-79 | a repeated PUT of the same body changes nothing |
| Content.MergeWorkEmpty | src/app/api/work/route.ts:79 | merging a body with no fields keeps the entry |
| Content.MergeWorkTwice | src/app/api/work/route.ts:79 | merging the same body twice is merging it once |
| Content.MergeWorkComplete | src/app/api/work/route.ts:79 | a body that gives every field replaces the entry |
| Content.Override | src/app/api/work/route.ts:79 | a field given by the body wins over that of the stored entry |
| ProjectsApi.ProjectStore.Get | src/app/api/projects/route.ts:37-41 | GET answers the stable descending sort by role ordinal of the stored items; a TypeError in the sort is an unanswered request |
| ProjectsApi.ProjectStore.Post | src/app/api/projects/route.ts:43-67 | a body without a title fails and writes nothing; otherwise exactly the new project is appended and answered with 201 |
| Content.NewProject | src/app/api/projects/route.ts:47-61 | the stored project has the derived slug, longDescription "" (not the description) when falsy, href/livePreviewUrl/youtubeUrl "" when falsy, and tags/links/diagrams [] when absent |
| ProjectsApi.ProjectStore.Delete | src/app/api/projects/route.ts:69-82 | without a slug: 400 and no write; otherwise success, and every project with that slug is gone |
| ProjectsApi.WithoutSlug | src/app/api/projects/route.ts:78 | exactly the items whose slug differs are kept |
| ProjectsApi.DeleteIdempotent | src/app/api/projects/route.ts:77-81 | a repeated DELETE changes nothing |
| ProjectsApi.DeleteAbsentSlug | src/app/api/projects/route.ts:77-81 | DELETE of an absent slug keeps the items |
| ProjectsApi.DeleteAfterPost | src/app/api/projects/route.ts:77-81 | deleting the slug of a just-posted project removes it; also src/app/api/projects/route.ts:47-63 |
| ProjectsApi.ProjectStore.Put | src/app/api/projects/route.ts:84-97 | no project with the body's slug: 404 and no write; otherwise a shallow merge at the first match |
| ProjectsApi.Updated | src/app/api/projects/route.ts:93 | the merge keeps the number of items |
| ProjectsApi.PutKeepsOthersAndSlugs | src/app/api/projects/route.ts:88-93 | only the first matched index changes, and every slug is unchanged |
| ProjectsApi.PutIdempotent | src/app/api/projects/route.ts:88-93 | a repeated PUT of the same body changes nothing |
| Content.MergeProjectEmpty | src/app/api/projects/route.ts:93 | merging a body with no fields keeps the project |
| Content.MergeProjectTwice | src/app/api/projects/route.ts:93 | merging the same body twice is merging it once |
| LinksApi.LinkStore.Get | src/app/api/links/route.ts:7-23 | GET answers the links in insertion order, and no links when the document cannot be read |
| LinksApi.LinkStore.Post | src/app/api/links/route.ts:25-38 | only the title and the address of the body are stored, appended at the end, unchecked |
| LinksApi.LinkOf | src/app/api/links/route.ts:29-32 | the stored link carries exactly the body's title and address; also src/app/api/links/route.ts:64 |
| LinksApi.LinkStore.Delete | src/app/api/links/route.ts:40-53 | without a title: 400 and no write; otherwise every link with that title is removed and the reply is a success |
| LinksApi.WithoutTitle | src/app/api/links/route.ts:49 | exactly the links with another title are kept |
| LinksApi.DeleteIdempotent | src/app/api/links/route.ts:48-52 | a repeated DELETE changes nothing |
| LinksApi.DeleteAfterPost | src/app/api/links/route.ts:34-49 | deleting the title of a just-posted link removes it and every older link of that title, keeping the rest in order |
| LinksApi.LinkStore.Put | src/app/api/links/route.ts:55-68 | no link titled `originalTitle`: 404 and no write; otherwise the first such link is replaced |
| LinksApi.PutReplacesWholesale | src/app/api/links/route.ts:59-64 | the found link becomes exactly `{title, href}` with no merge, the others keep their place, and after a rename no link up to that index still carries the old title |
| ToolsApi.ToolStore.Get | src/app/api/tools/route.ts:18-34 | GET answers the categories, or the four empty ones when the document cannot be read |
| ToolsApi.ToolStore.Post | src/app/api/tools/route.ts:36-55 | a falsy category or name: 400 and no write; a category named after an inherited `Object` member that the document does not hold (`constructor`, `__proto__`, …) throws at `push`: an unanswered request with no write; otherwise the tool is appended to its category and answered with 201 |
| ToolsApi.ToolOf | src/app/api/tools/route.ts:50 | the stored tool has the given name and the description, or "" when that is falsy; also src/app/api/tools/route.ts:95 |
| ToolsApi.WithTool | src/app/api/tools/route.ts:46-51 | an absent category is created; the tool ends its category; every other category is unchanged |
| ToolsApi.ToolStore.Delete | src/app/api/tools/route.ts:57-74 | without both parameters: 400 and no write; an inherited member's name throws at `filter` with no write; any other absent category is not written and answers success; an existing one is filtered by name and answers success |
| ToolsApi.WithoutTool | src/app/api/tools/route.ts:69 | exactly the tools of another name are kept in that category, and the other categories are unchanged |
| ToolsApi.DeleteAfterPost | src/app/api/tools/route.ts:46-69 | deleting a just-posted tool leaves its category as DELETE of that name would have left it before |
| ToolsApi.DeleteIdempotent | src/app/api/tools/route.ts:68-71 | a repeated DELETE changes nothing |
| ToolsApi.ToolStore.Put | src/app/api/tools/route.ts:76-99 | a missing category, originalName or name: 400; an inherited member's name: throws at `findIndex`; any other unknown category: 404; an unknown originalName: 404; none of these writes; otherwise the first match is replaced in place |
| ToolsApi.PutKeepsShape | src/app/api/tools/route.ts:90-95 | PUT keeps the categories, the length of the category, every other tool and every other category |
| Slug.DeriveSlug | src/app/api/work/route.ts:32 | a derived slug only holds `a-z`, `0-9` and `-`, and is no longer than the title |
| Slug.HyphenateSpaces | src/app/api/work/route.ts:32 | after every white-space run becomes "-", no white space is left |
| Slug.KeepSlugChars | src/app/api/work/route.ts:32 | dropping the other characters leaves a slug, no longer than the input |
| Slug.KeepSlugCharsOfSlug | src/app/api/work/route.ts:32 | a slug has nothing to drop and comes back unchanged |
| Slug.DeriveSlugOfWords | src/app/api/work/route.ts:32 | two slug words around any run of white space, with punctuation after, derive the words joined by one hyphen |
| Slug.DeriveSlugOfSlug | src/app/api/work/route.ts:32 | deriving the slug of a slug gives it back |
| Slug.DeriveSlugIdempotent | src/app/api/work/route.ts:32 | deriving twice is deriving once |
| Slug.SlugsCollide | src/app/api/work/route.ts:32 | two different titles derive the same slug, and nothing checks it; also src/app/api/projects/route.ts:47 |
| Chronology.Search | src/lib/work.ts:33 | the leftmost-match scan: no match exactly when no position matches, otherwise a well-formed match found at some position |
| Chronology.FirstMatch | src/lib/work.ts:33 | the found position is the first at which the expression matches |
| Chronology.TryAt | src/lib/work.ts:33 | at a fixed start the match takes the whole word run, then the white space run, then the first four digits, and any match at that start is this one |
| Chronology.Unique | src/lib/work.ts:33 | a match at a given start is unique |
| Chronology.DateOf | src/lib/work.ts:32-37 | a date is found exactly when the lower-cased text matches, with a year of four digits and a month index up to 11 |
| Chronology.MonthIndex | src/lib/work.ts:28-35 | a word that is not one of the twelve month keys gives month 0 |
| Chronology.SortValue | src/lib/work.ts:27-41 | 0 without a date even with "present"; a dated "present" text scores at least 100000, another dated text at most 119999; also src/lib/projects.ts:28-42 |
| Chronology.LaterSortsFirst | src/lib/work.ts:37-38 | among texts that agree on "present", the higher ordinal is exactly the later date, and equal ordinals are exactly equal dates |
| Chronology.PresentSortsFirst | src/lib/work.ts:37-38 | a dated "present" text outranks a non-present one whose year is at most 8332 later |
| Chronology.PresentBoundIsTight | src/lib/work.ts:37-38 | a non-present date 8333 years later outranks a "present" one, so the 8332 bound cannot be raised |
| Chronology.DateAtStart | src/lib/work.ts:33-37 | a text opening with word, white space and digits is dated by its first date, so a range ranks by its start |
| Chronology.DateOfLeadingDate | src/lib/work.ts:33-37 | a text opening with a word, a space and four digits has exactly that date |
| Chronology.NonMonthWordIsJanuary | src/lib/work.ts:35 | a leading word that is not a month key gives month 0 |
| Chronology.MarchIsJanuary | src/lib/work.ts:35 | "March 2021" ranks as January, because only the whole word is looked up |
| Chronology.UndatedWithoutDigits | src/lib/work.ts:32-40 | a text without a digit scores 0, whatever it says about "present" |
| Chronology.DateAfterParenthesis | src/lib/projects.ts:34-38 | under the parenthesised expression the date is the one right after the first "(" |
| Chronology.UndatedWithoutParenthesis | src/lib/projects.ts:34-41 | without "(" the parenthesised expression finds no date and scores 0 |
| Chronology.UndatedWhenParenthesisFails | src/lib/projects.ts:34 | when the only "(" is not followed by a word, white space and digits, there is no date |
| Chronology.ParenthesisedImpliesBare | src/lib/projects.ts:34 | whatever the parenthesised expression dates, the bare one dates too; also src/lib/work.ts:33 |
| Chronology.PatternsDisagree | src/lib/projects.ts:34 | a text opening with a date and without "(" is dated by the bare expression and undated by the parenthesised one; also src/lib/work.ts:33 |
| Chronology.YearValueOfDigits | src/lib/work.ts:36 | `parseInt` of the four printed digits of a year gives the year back |
| Sorting.SortDescending | src/lib/work.ts:49 | the sort keeps the elements, its keys never increase, and entries with equal keys keep their stored order |
| Sorting.StableSortUnique | src/lib/work.ts:49 | two orderings that are both non-increasing and keep the order of each key class are equal |
| Sorting.SortDescendingIsTheStableSort | src/lib/work.ts:49 | every stable descending sort of the list is this one, so the modelled order is the only one the engine may give; also src/lib/projects.ts:49, src/app/api/projects/route.ts:39 |
| Sorting.InsertSorted | src/lib/work.ts:49 | inserting into a sorted list keeps it sorted |
| Ordering.SortByPeriod | src/lib/work.ts:49 | the work sort fails exactly when it would throw, and otherwise is the stable descending period sort |
| Ordering.SortByRole | src/lib/projects.ts:49 | the project sort fails exactly when it would throw, and otherwise is the stable descending sort by parenthesised role ordinal; also src/app/api/projects/route.ts:39 |
| Ordering.DashboardSortByRole | src/app/admin/dashboard/page.tsx:114-128 | the dashboard sorts projects with the bare expression on the role; also src/app/admin/dashboard/page.tsx:150 |
| WorkLib.GetWorkItems | src/lib/work.ts:43-53 | an unreadable document or a throwing sort gives []; otherwise the stable descending period sort |
| WorkLib.GetWorkBySlug | src/lib/work.ts:55-59 | the first entry in sorted order with that slug, or none exactly when no entry has it |
| WorkLib.GetAllWorkSlugs | src/lib/work.ts:61-65 | the slugs of the sorted entries, in that order |
| WorkLib.EverySlugHasPage | src/lib/work.ts:55-65 | every listed slug finds an entry with that slug |
| WorkLib.PostedEntryHasPage | src/lib/work.ts:55-59 | after a POST, its derived slug has a detail page; also src/app/api/work/route.ts:32-47 |
| WorkLib.DeletedEntryHasNoPage | src/lib/work.ts:55-59 | after DELETE of a slug, no page has it; also src/app/api/work/route.ts:63 |
| ProjectsLib.GetProjects | src/lib/projects.ts:44-53 | an unreadable document or a throwing sort gives []; otherwise the stable descending role sort |
| ProjectsLib.GetProjectBySlug | src/lib/projects.ts:55-59 | the first project in sorted order with that slug, or none exactly when no project has it |
| ProjectsLib.GetAllProjectSlugs | src/lib/projects.ts:61-63 | the slugs of the sorted projects, same order and length |
| ProjectsLib.EverySlugHasPage | src/lib/projects.ts:55-63 | every listed slug finds a project with that slug |
| ProjectsLib.PostedEntryHasPage | src/lib/projects.ts:55-59 | after a POST, its derived slug has a detail page; also src/app/api/projects/route.ts:47-63 |
| ProjectsLib.DeletedEntryHasNoPage | src/lib/projects.ts:55-59 | after DELETE of a slug, no page has it; also src/app/api/projects/route.ts:78 |
| Blog.MdxFiles | src/app/api/blog/route.ts:10 | exactly the file names ending in ".mdx" are listed |
| Blog.SlugOfFile | src/app/api/blog/route.ts:13 | the slug is the file name with its first ".mdx" removed, or the name itself without one |
| Blog.SlugOfMdxName | src/app/api/blog/route.ts:13 | removing the first ".mdx" of `x.mdxy` gives `xy` |
| Blog.FenceBlock | src/app/api/blog/route.ts:16 | the `---\s*([\s\S]*?)\s*---` match by leftmost start, longest leading white space and shortest group; none exactly when the text has no such block |
| Blog.Frontmatter | src/app/api/blog/route.ts:16 | the captured block is absent exactly when there is no match, and otherwise the group between the white space runs |
| Blog.FrontmatterBetweenFences | src/app/api/blog/route.ts:16 | the block is the trimmed text between the first "---" and the next one that does not overlap it, and there is none when either is missing |
| Blog.StripQuotes | src/app/api/blog/route.ts:24 | one leading and one trailing quote character are dropped |
| Blog.StripQuotesOfQuoted | src/app/api/blog/route.ts:24 | a quoted value loses exactly its two quotes |
| Blog.StripQuotesOfUnquoted | src/app/api/blog/route.ts:24 | an unquoted value is unchanged |
| Blog.FieldLine | src/app/api/blog/route.ts:23-24 | a line splits at its first ": "; the key is trimmed, and the value keeps its later ": " pieces, loses its quotes and is trimmed |
| Blog.LastValue | src/app/api/blog/route.ts:22-27 | the value of the last line with the key, or the default when there is none |
| Blog.ScanFields | src/app/api/blog/route.ts:17-28 | the loop leaves title as the last title line (default the slug) and date as the last date line (default "") |
| Blog.PostOf | src/app/api/blog/route.ts:11-30 | the post carries the slug of its file and the file name |
| Blog.UntitledPost | src/app/api/blog/route.ts:17-20 | without a frontmatter block, the title is the slug and the date is "" |
| Blog.ReadPost | src/app/api/blog/route.ts:11-30 | reading one file gives the post the listing defines |
| Blog.ReadPosts | src/app/api/blog/route.ts:11-31 | reading the files one by one gives the posts the listing defines, one per file, in order |
| Blog.ListPosts | src/app/api/blog/route.ts:10-31 | one post per ".mdx" file, in directory order, before the date sort |
| ProjectPage.ParseRolePeriod | src/app/projects/page.tsx:7-13 | without a match the role comes back unchanged with no period; otherwise role and period are trimmed and cut at the shortest role that the pattern admits |
| ProjectPage.RoleAndPeriod | src/app/projects/page.tsx:8-10 | `role (period)` splits into its role and period |
| ProjectPage.UndatedRole | src/app/projects/page.tsx:8-12 | a role not ending in ")" is unchanged with no period |
| ProjectPage.UnparenthesisedRole | src/app/projects/page.tsx:8-12 | a role with no "(" after its first character is unchanged with no period |
| HomePage.StripDate | src/app/page.tsx:15 | a role without a white-space-and-parenthesised tail at its end is unchanged; otherwise the leftmost such tail is cut off |
| HomePage.StripAgreesWithParse | src/app/page.tsx:15 | on a role without line breaks that starts with neither white space nor "(", the home page shows the role the projects page parses; also src/app/projects/page.tsx:7-13 |
| HomePage.HomeItems | src/app/page.tsx:13-18 | at most the first two projects, with title, description and address copied and the date tail stripped from the role; a shown project without a role fails |
| HomePage.HomeShowsTopRanked | src/app/page.tsx:10-18 | no project the home page leaves out ranks above one it shows |
| DashboardForms.TrimmedFields | src/app/admin/dashboard/page.tsx:190-207 | every field of the split tag text, trimmed, has no surrounding white space and no "," |
| DashboardForms.ParseTags | src/app/admin/dashboard/page.tsx:190-207 | every parsed tag is non-empty, trimmed and free of "," |
| DashboardForms.ParseTagsConcat | src/app/admin/dashboard/page.tsx:190 | parsing keeps input order: the tags of `a,b` are those of `a` followed by those of `b` |
| DashboardForms.JoinTags | src/app/admin/dashboard/page.tsx:342 | no tags join to "", and a single tag to itself |
| DashboardForms.TagsRoundTrip | src/app/admin/dashboard/page.tsx:190 | joining clean tags with ", " and parsing them back gives the same list; also src/app/admin/dashboard/page.tsx:342 |
| DashboardForms.ReparseTagsStable | src/app/admin/dashboard/page.tsx:190 | once parsed, a tag list survives every further edit round trip; also src/app/admin/dashboard/page.tsx:342 |
| DashboardForms.BulletLines | src/app/admin/dashboard/page.tsx:697 | splitting the text area always gives at least one line, and no line holds a newline |
| DashboardForms.BulletsText | src/app/admin/dashboard/page.tsx:696 | no bullets show as an empty text area |
| DashboardForms.TextRoundTrip | src/app/admin/dashboard/page.tsx:696-697 | joining the split lines gives the text back |
| DashboardForms.BulletsRoundTrip | src/app/admin/dashboard/page.tsx:696-697 | a non-empty list of newline-free bullets survives the round trip |
| DashboardForms.NoBulletsComeBackBlank | src/app/admin/dashboard/page.tsx:696-697 | no bullets come back as one blank bullet |
| DashboardForms.WithField | src/app/admin/dashboard/page.tsx:294-298 | updating one field of a work project keeps the other two |
| DashboardForms.WithLinkField | src/app/admin/dashboard/page.tsx:310-331 | updating one field of a link keeps the other |
| DashboardForms.WithFieldTwice | src/app/admin/dashboard/page.tsx:294-298 | a second update of the same field overrides the first |
| DashboardForms.WithFieldSame | src/app/admin/dashboard/page.tsx:294-298 | writing a field's own value back changes nothing |
| DashboardForms.RemoveAppended | src/app/admin/dashboard/page.tsx:290-302 | removing the just-added last entry restores the list |
| DashboardForms.WorkFormOf | src/app/admin/dashboard/page.tsx:337-351 | an entry without tags cannot be opened (the handler throws); otherwise the form shows its fields, the logo or "", and the tags joined |
| DashboardForms.ProjectFormOf | src/app/admin/dashboard/page.tsx:353-368 | likewise for projects, with "" for the absent long description and media addresses |
| DashboardForms.WorkPayload | src/app/admin/dashboard/page.tsx:188-193 | the body sent is the form, with the tags parsed, the edited projects and the given slug |
| DashboardForms.ProjectPayload | src/app/admin/dashboard/page.tsx:205-211 | the body sent is the form, with the tags parsed, the edited links and `diagrams: []` |
| DashboardForms.UnchangedWorkEdit | src/app/admin/dashboard/page.tsx:337-351 | saving an opened entry without edits merges back to the same entry, when its tags were clean; also src/app/admin/dashboard/page.tsx:188-195, src/app/api/work/route.ts:79 |
| DashboardForms.UnchangedProjectEdit | src/app/admin/dashboard/page.tsx:353-368 | saving an opened project without edits keeps it except its diagrams, which are wiped; also src/app/admin/dashboard/page.tsx:205-213, src/app/api/projects/route.ts:93 |
| Dashboard.Stage | src/app/admin/dashboard/page.tsx:130-163 | how far the refresh got: no setter runs when `Promise.all` rejects (any one request failed); otherwise each setter runs only when every earlier body parsed and no earlier sort threw |
| Dashboard.FailedRequestKeepsLists | src/app/admin/dashboard/page.tsx:132-138 | when one of the five requests fails, every list keeps its old value, including those whose own request succeeded |
| Dashboard.Refreshed | src/app/admin/dashboard/page.tsx:130-163 | each list that was reached is replaced (work and projects sorted descending), and every later list keeps its old value |
| Dashboard.RefreshTwice | src/app/admin/dashboard/page.tsx:130-163 | refreshing twice with the same responses is refreshing once |
| Dashboard.CompleteRefreshForgets | src/app/admin/dashboard/page.tsx:130-163 | a refresh that reaches every setter does not depend on the old lists |
| Dashboard.Closed | src/app/admin/dashboard/page.tsx:370-379 | closing clears the modal, the edited item, both nested lists, the link and tool forms and their keys, but keeps the work and project forms and the data |
| Dashboard.CloseTwice | src/app/admin/dashboard/page.tsx:370-379 | closing twice is closing once |
| Dashboard.NewWorkStartsBlank | src/app/admin/dashboard/page.tsx:337-351 | opening a new work entry shows a blank form with no projects and nothing being edited |
| Dashboard.WorkRequest | src/app/admin/dashboard/page.tsx:186-195 | PUT exactly when an item is being edited, carrying its slug, otherwise POST without one; the body is the form's payload |
| Dashboard.ProjectRequest | src/app/admin/dashboard/page.tsx:203-213 | the same choice for projects |
| Dashboard.LinkRequest | src/app/admin/dashboard/page.tsx:227-233 | PUT exactly when an original title is truthy, with the form and that title |
| Dashboard.ToolRequest | src/app/admin/dashboard/page.tsx:247-253 | PUT exactly when an original name is truthy, with the form, the category and that name |
| Dashboard.EditSubmitsPut | src/app/admin/dashboard/page.tsx:337-351 | opening an entry then saving sends PUT with its slug; opening a new one sends POST; also src/app/admin/dashboard/page.tsx:192-195 |
| Dashboard.ClosedSubmitsPost | src/app/admin/dashboard/page.tsx:370-379 | after closing, every form submits a POST; also src/app/admin/dashboard/page.tsx:195, 213, 233 and 253 |
| Dashboard.UnchangedEditKeepsStore | src/app/admin/dashboard/page.tsx:337-351 | an unchanged edit of a stored entry reaches it by slug and leaves the work document as it was; also src/app/admin/dashboard/page.tsx:186-195, src/app/api/work/route.ts:74-79 |
| Dashboard.ListEditsShape | src/app/admin/dashboard/page.tsx:290-302 | add grows by one blank project at the end; remove drops one; update keeps the length and every other entry |
| Dashboard.AdminDashboard.constructor | src/app/admin/dashboard/page.tsx:67-102 | the page starts loading, with empty lists, no modal and blank forms |
| Dashboard.AdminDashboard.FetchAllData | src/app/admin/dashboard/page.tsx:130-163 | the state becomes the refreshed data with loading off, and nothing else changes |
| Dashboard.AdminDashboard.CloseModal | src/app/admin/dashboard/page.tsx:370-379 | the new state is the closed state |
| Dashboard.AdminDashboard.OpenWorkModal | src/app/admin/dashboard/page.tsx:337-351 | the new state is the opened work editor |
| Dashboard.AdminDashboard.OpenProjectModal | src/app/admin/dashboard/page.tsx:353-368 | the new state is the opened project editor |
| Dashboard.AdminDashboard.OpenLinkModal | src/app/admin/dashboard/page.tsx:278-287 | an existing link fills the form and records its title; a new one blanks both |
| Dashboard.AdminDashboard.OpenToolModal | src/app/admin/dashboard/page.tsx:267-276 | an existing tool with a category fills the form and records its name; otherwise the form is blank in "development" |
| Dashboard.AdminDashboard.SubmitWork | src/app/admin/dashboard/page.tsx:186-201 | sends the work request, then refreshes the lists and closes, whatever the server replied |
| Dashboard.AdminDashboard.SubmitProject | src/app/admin/dashboard/page.tsx:203-219 | sends the project request, then refreshes and closes |
| Dashboard.AdminDashboard.SubmitLink | src/app/admin/dashboard/page.tsx:227-239 | sends the link request, then refreshes and closes |
| Dashboard.AdminDashboard.SubmitTool | src/app/admin/dashboard/page.tsx:247-259 | sends the tool request, then refreshes and closes |
| Dashboard.AdminDashboard.AddWorkProject | src/app/admin/dashboard/page.tsx:290-292 | appends one `{title: "", links: [], bullets: []}` and changes nothing else |
| Dashboard.AdminDashboard.UpdateWorkProject | src/app/admin/dashboard/page.tsx:294-298 | changes only the given field of the given project |
| Dashboard.AdminDashboard.RemoveWorkProject | src/app/admin/dashboard/page.tsx:300-302 | drops exactly that index and keeps the others in order |
| Dashboard.AdminDashboard.AddProjectLink | src/app/admin/dashboard/page.tsx:304-308 | appends a blank link to that project's links and changes nothing else |
| Dashboard.AdminDashboard.UpdateProjectLink | src/app/admin/dashboard/page.tsx:310-314 | changes one field of one link of one project |
| Dashboard.AdminDashboard.RemoveProjectLink | src/app/admin/dashboard/page.tsx:316-320 | drops exactly that link of that project |
| Dashboard.AdminDashboard.AddProjLink | src/app/admin/dashboard/page.tsx:323-325 | appends a blank link to the project's links |
| Dashboard.AdminDashboard.UpdateProjLink | src/app/admin/dashboard/page.tsx:327-331 | changes one field of one link |
| Dashboard.AdminDashboard.RemoveProjLink | src/app/admin/dashboard/page.tsx:333-335 | drops exactly that index |
| Middleware.Gate | src/middleware.ts:4-27 | a dashboard path without the cookie `admin_auth=true` redirects to /admin; a non-GET work API call without it is 401; everything else passes |
| Middleware.SignedIn | src/middleware.ts:11 | signed in exactly when the cookie is present and its value is "true"; also src/middleware.ts:21 |
| Middleware.Matched | src/middleware.ts:29-31 | every path the matcher selects starts with one of the gate's two prefixes |
| Middleware.Handle | src/middleware.ts:26-31 | paths outside the matcher pass untouched; matched paths go through the gate |
| Middleware.WorkReadsAreOpen | src/middleware.ts:18 | a GET of the work API always passes |
| Middleware.SignedInPasses | src/middleware.ts:11-21 | a signed-in request always passes |
| Middleware.MatchedPathsAreGuarded | src/middleware.ts:8-24 | signed out, dashboard paths redirect and non-GET work calls get 401 |
| Middleware.UnmatchedLookalike | src/middleware.ts:18-31 | "/api/workshop" would be refused by the gate, but the matcher never sends it there |
| MobileHeader.PageInitial | src/components/mobile-header.tsx:58-69 | always one of h/w/b/p/t; an exact key gives its initial; an undefined path gives "h"; also src/components/mobile-header.tsx:9-15 |
| MobileHeader.SectionInitial | src/components/mobile-header.tsx:63-67 | otherwise the first non-root key the path starts with, in declared order, wins |
| MobileHeader.DetailPages | src/components/mobile-header.tsx:63-67 | "/blog/x" shows "b" and "/workshop" shows "w" |
| MobileHeader.IsActive | src/components/mobile-header.tsx:118-119 | an entry is active on its own page, and only on paths that start with its href |
| MobileHeader.Hidden | src/components/mobile-header.tsx:72-74 | the header is shown on every page its menu links to |
| MobileHeader.ShownOnItsPage | src/components/mobile-header.tsx:58-119 | on an entry's own page the header is shown, that entry is the only active one, and its initial is displayed |
| MobileHeader.AtMostOneActive | src/components/mobile-header.tsx:17-23 | at most one menu entry is active; also src/components/mobile-header.tsx:118-119 |
| MobileHeader.ActiveEntryHasInitial | src/components/mobile-header.tsx:58-69 | the active entry's initial is the one the header shows; also src/components/mobile-header.tsx:118-119 |
| Navbar.IsActive | src/components/navbar.tsx:19-22 | an entry is active on its own page, and only on paths that start with its href |
| Navbar.Hidden | src/components/navbar.tsx:44-46 | the bar is shown on every page it links to |
| Navbar.Expanded | src/components/navbar.tsx:76-77 | the active entry's label is expanded whatever the hover; every label is while hovered; otherwise only the active one |
| Navbar.OneLabelUnhovered | src/components/navbar.tsx:76-77 | without hover at most one label is expanded |
| Navbar.ShownOnItsPage | src/components/navbar.tsx:19-46 | on an entry's own page the bar is shown and that entry is the only active one and is expanded |
| Navbar.AtMostOneActive | src/components/navbar.tsx:6-22 | at most one bar entry is active, since the hrefs are prefix-free |
| Navbar.KeyTarget | src/components/navbar.tsx:25-37 | nothing while an input has focus; otherwise the entry whose key is the lower-cased key, or nothing |
| Navbar.ShortcutIgnoresCase | src/components/navbar.tsx:35 | a shortcut works the same in upper and lower case |
| PostSearch.FilterPosts | src/components/posts.tsx:20-22 | exactly the posts whose lower-cased title contains the lower-cased query are kept |
| PostSearch.EmptyQueryKeepsAll | src/components/posts.tsx:20-22 | the empty query keeps every post in order |
| PostSearch.FilterIgnoresCase | src/components/posts.tsx:20-22 | the query's case does not matter |
| PostSearch.PostList.constructor | src/components/posts.tsx:13-15 | the list starts not searching, with an empty query and the top entry selected |
| PostSearch.PostList.SetQuery | src/components/posts.tsx:24-26 | a changed query resets the selection to 0 |
| PostSearch.PostList.KeyDown | src/components/posts.tsx:38-69 | "/" starts searching; Escape while searching stops and clears the query; the arrows move the selection while searching and keep it in range; Enter while searching opens the selected post when the list is non-empty; every other key does nothing |

## Left out

- File reads and writes, `NextRequest`/`NextResponse` and URL parsing. A document is a value, an unreadable one is `None`, and a reply is a status and a payload. JSON serialisation and the `{items: …}` wrapper are not modelled.
- JSON `null` is not told apart from an absent field; both are `None`. Request bodies carry only the fields the handlers read.
- Two requests never interleave; each handler is atomic, so lost updates between concurrent writers are not modelled.
- Unicode lower-casing and the regular-expression engine in general. Only the listed expressions are scanned, over ASCII lower-casing.
- The inherited keys of the month map (`months["constructor"]` is a function, not a number) and of `pageInitials` are not modelled; both are modelled as twelve- and five-key maps. The tools handlers do model inherited keys (`ToolsApi.Inherited`).
- The key order of the tools document's map is not modelled.
- The blog listing's date sort (src/app/api/blog/route.ts:34) relies on JavaScript `Date` parsing; `Blog.ListPosts` stops before it. The outer `catch` that answers [] is left out with the file system. Blog DELETE checks and unlinks a file and is left out.
- The visual and timed components, the upload and fun-facts routes, the tools page, `lib/links.ts` and the admin login's credential check are not part of this model.
- In the dashboard, the delete handlers and their confirmation dialogs, the logo upload (page.tsx:165-184), the authentication probe (page.tsx:104-112), the active tab, the upload flag and the per-keystroke form setters are left out. The network failure of a submit's fetch is left out too: the model sends the request and ignores the reply, as the page does.
- Dashboard.AdminDashboard.AddProjectLink: the page assigns a new `links` array on a project object that the previous state still shares (page.tsx:306); the model works on values, so that aliasing is not captured.
- Dashboard.AdminDashboard.UpdateProjectLink: the page writes into the `links` array shared with the previous state and the stored entry (page.tsx:312); the in-place write is not captured.
- Dashboard.AdminDashboard.RemoveProjectLink: the page reassigns `links` on the shared project object (page.tsx:318); that aliasing is not captured.
- Dashboard.AdminDashboard.UpdateWorkProject, Dashboard.AdminDashboard.AddProjectLink, Dashboard.AdminDashboard.UpdateProjectLink, Dashboard.AdminDashboard.RemoveProjectLink and Dashboard.AdminDashboard.UpdateProjLink require an index in range. The page only calls them with the index of a rendered row. Out of range, `addProjectLink`, `removeProjectLink` and `updateProjectLink` throw a TypeError at `updated[projectIndex].links` (page.tsx:306, 312, 318), and writing past the end of a JavaScript array (page.tsx:296, 312, 329) would pad it with holes.
- The dashboard refresh: a blog, links or tools body that parses but is not a list of posts, links or a category map is stored by the page as it is; the model's bodies are always well formed.
- Dashboard.AdminDashboard.OpenWorkModal: on an entry without tags the page throws after `setEditingItem`; the model stores the edited item and leaves the form and the modal alone, and does not model whether React commits the earlier setters.
- ToolsApi.ToolStore: a stored tool whose name is not a string, and a stored category that is not an array, are not modelled.

### Where the code and its description differ

- The months are keys of a map, so the whole matched word must be a key: "march 2021" ranks as January of 2021 (`Chronology.MarchIsJanuary`).
- The sort-value comments promise "present items first" (src/lib/work.ts:26 and 48, src/lib/projects.ts:27). The +100000 bonus keeps that promise only against non-present entries at most 8332 years later; one 8333 years later outranks a present entry (`Chronology.PresentSortsFirst`, `Chronology.PresentBoundIsTight`).
- A work or project POST without a title throws at `body.title.toLowerCase()` (src/app/api/work/route.ts:32, src/app/api/projects/route.ts:47). The model answers it as an unanswered request that writes nothing (`Crash`) instead of excluding it by a precondition.
- `closeModal` (src/app/admin/dashboard/page.tsx:370-379) does not reset the work and project forms; it resets the link and tool forms. Opening an editor fills its form again.

### Observations

- Saving a project from the dashboard always sends `diagrams: []`, so the merge wipes stored diagrams (`DashboardForms.UnchangedProjectEdit`).
- Each submit closes the editor and refreshes whatever the server answered, so a 400 or 404 is silent.
- The dashboard's delete of a work entry or project does not URL-encode the slug, unlike the link and tool deletes.
