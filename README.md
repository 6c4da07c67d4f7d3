# SiteTree sitemap pipeline, in Dafny

SiteTree is a WordPress plugin that publishes an XML sitemap for search
engines, a Google News sitemap (the "newsmap") and an HTML site tree
page. This project models the parts of it that decide things and proves
what they promise:

- **Indexer** (`indexer.dfy`): the index of sitemaps. `updateIndex` folds
  the counted rows of each content type into a number of sitemap files,
  within a per-file capacity and a global budget of 50000 files. Around it
  sit the file UIDs, the check that a requested file exists, the
  classification of a sitemap ID, and the cached totals.
- **Builders** (`image_element.dfy`, `google_sitemap.dfy`,
  `sitemap_builder.dfy`): the builder's counters and capacity, the MySQL
  offset of a file and the attribute preparation of the Google sitemap
  builder, and the sitemap builder. The sitemap builder serialises each
  post as a `<url>` element with at most 1000 images, and adds the home
  page and the blog page once each.
- **Core** (`core.dfy`): the sitemap file name, which sitemaps are
  active, the URL of every sitemap file, the rewrite rules a request path
  is matched against, the local-website test and the flush of cached data.
- **Delegate** (`core_delegate.dfy`, `core_delegate_metrics.dfy`): which
  document a request gets (a redirect, the index of sitemaps, one sitemap
  file or a 404), the markup of the index of sitemaps, and the merge of a
  build's metrics into the stored metrics, with their averages.
- **Ping** (`ping.dfy`): the ping state of a sitemap, folded from the
  replies of Google and Bing, and the controller that decides which
  engines to ping and when a manual ping is allowed.
- **Data model** (`data_model.dfy`, `option_filters.dfy`,
  `data_controller.dfy`): admin pages, sections and fieldsets with their
  field dictionaries and reordering. It also covers the validators that
  filter each submitted option, and the data controller. The data
  controller registers sections, fills options with defaults, sanitises
  submissions and collects defaults.
- **Helpers** (`library/functions.php` in `functions.dfy`): `time_since`,
  `gmt_to_local_date` and `truncate_sentence`.

Shared modules model what PHP and WordPress supply:

- `php_array.dfy`: ordered PHP arrays with PHP's key casting;
- `text.dfy`: string functions;
- `store.dfy`: the option rows kept between requests;
- `wrappers.dfy`: `Option`.

WordPress functions the code calls are parameters of the operations
that use them, for example `esc_url`, `get_permalink`, `home_url`,
`strtotime`, `wp_kses` and `parse_url`. Database query results,
search-engine replies and the clock are inputs. Objects whose fields the
source updates are classes with `modifies` clauses: the indexer, the
image element, the builder, the ping state and controller, the section,
the page, the options filter and the data controller.

## Model

| member | source | states |
|---|---|---|
| SiteTreeFunctions.GmtToLocalDate | library/functions.php:19-35 | `-` for a timestamp that is not positive |
| SiteTreeFunctions.TimeSince | library/functions.php:43-48 | the result is `-` exactly when the time is not positive |
| SiteTreeFunctions.FirstFittingUnit | library/functions.php:74-83 | the unit loop yields the amount of the first unit not larger than the elapsed time, rounded half up; when no unit fits, the fallback is 1 second |
| SiteTreeFunctions.TimeSinceIsNearest | library/functions.php:74-83 | the unit chosen is the largest of day, hour, minute, second that fits in the elapsed time; the amount is that time in the unit rounded to the nearest whole and at least 1; under a second it is "1 second" |
| SiteTreeFunctions.RoundedQuotientNear | library/functions.php:76 | `round($delta / $unit)` lies within half a unit of the elapsed time and is at least 1 |
| SiteTreeFunctions.TimeSincePlural | library/functions.php:76-78 | the plural format ("... s ago") is used exactly when the rounded amount is above one |
| SiteTreeFunctions.WholeWordsBoundary | library/functions.php:97-103 | `WholeWords`: what is kept of the first L characters is a prefix of the text that ends at the cut point: at L when the cut already ends with a space, otherwise at the last space before L (no space of the cut lies after it), or empty when the cut holds no space |
| SiteTreeFunctions.TruncateShort | library/functions.php:92-96 | `TruncateSentence`: a trimmed text of at most the given length comes back as the trimmed text |
| SiteTreeFunctions.TruncateLong | library/functions.php:92-106 | `TruncateSentence`: a longer trimmed text becomes its part up to the cut point (the last space before the length, or the length itself when the cut ends with a space), less only the trailing spaces and ` .,;:?!` before that point, followed by `...`; the body never ends in one of those characters and the result is at most length + 3 long |
| SiteTreeFunctions.ShortenedFacts | library/functions.php:97-106 | the same statement for the cut-and-strip step on a text already trimmed |
| Indexing.FilesIsCeiling | includes/indexer.class.php:470 | the files a content type needs are the ceiling of its count over the permalinks per file, and at least one for a positive count |
| Indexing.FoldWithinGlobalBudget | includes/indexer.class.php:465-486 | the loop of `updateIndex` never lowers the running total of files and never takes it past the global maximum of 50000 |
| Indexing.FoldIgnoresEmptyCounters | includes/indexer.class.php:469 | counters with a count of zero or less leave the tally as it is |
| Indexing.FoldUnderBudget | includes/indexer.class.php:469-486 | when the counters fit in the budget, the file total grows by the files they ask for and the permalink total by their items |
| Indexing.FoldFillsBudget | includes/indexer.class.php:473-481 | when the counters ask for more than the budget left, the index ends up listing exactly 50000 files |
| Indexing.FoldStopsAtOverflow | includes/indexer.class.php:473-481 | the counter that does not fit records the files left, adds that many times the per-file maximum to the permalinks, and no later counter is looked at |
| Indexing.StepKeepsOtherTypes | includes/indexer.class.php:477-484 | recording one content type leaves every other type's entry unchanged |
| Indexing.FoldKeepsOtherTypes | includes/indexer.class.php:469-486 | a content type that no counter names keeps its entry in the index |
| Indexing.FoldIndexStaysSet | includes/indexer.class.php:469-486 | an index that exists still exists after the loop |
| Indexing.FoldRecordsEachType | includes/indexer.class.php:469-486 | within the budget, every content type with a positive count is recorded with the ceiling of its count over the per-file maximum |
| Indexing.StepKeepsIndexSum | includes/indexer.class.php:483-485 | recording a new content type keeps the index's keys distinct and its values adding up to the running file total |
| Indexing.FoldKeepsIndexSum | includes/indexer.class.php:465-486 | after the loop the values of the index add up to the running file total, the figure `getTotalNumberOfSitemaps` recomputes |
| Indexing.UpdateIndexKeepsIndexSum | includes/indexer.class.php:465-492 | the whole of `updateIndex` keeps the index's keys distinct and its values adding up to the file total |
| Indexing.UpdateIndexKeepsTypeOut | includes/indexer.class.php:465-492 | `updateIndex` never lists a content type that none of its counters names |
| Indexing.CountedTotalIsSum | includes/indexer.class.php:214-222 | when the count queries name distinct content types, a fresh count leaves an index with distinct keys, and the total `getTotalNumberOfSitemaps` answers is the sum of its values |
| Indexing.UpdateIndexPermalinks | includes/indexer.class.php:465-491 | within the budget the permalink total stays -1 when it was -1 and nothing was counted, and otherwise gains the items counted plus one |
| Indexing.UIDsIdentifyFiles | includes/indexer.class.php:139-149 | two sitemap files whose IDs hold no dash share a UID only when they have the same ID and the same number, with 0 read as 1 |
| Indexing.FirstIndexed | includes/indexer.class.php:167-175 | the type found is a public post type listed in the index; when none is found, no public post type is listed |
| Indexing.IncludedNames | includes/indexer.class.php:308-315 | every name kept is one of the given names that the sitemap includes |
| Indexing.Quoted | includes/indexer.class.php:311 | each name is wrapped in single quotes, one for one |
| Indexing.QuotedListIsJoin | includes/indexer.class.php:308-315 | the list the loop builds is the quoted included names joined by commas, with one trailing comma |
| Indexing.PostTypesListIsJoin | includes/indexer.class.php:308-315 | built from nothing, the post types list is the quoted included post types joined by commas, with nothing trailing |
| Indexing.CountAllWithinBudget | includes/indexer.class.php:289-294 | posts, authors and taxonomies counted together never take the file total past 50000 nor lower it |
| Indexing.NewsmapCountsPostsOnly | includes/indexer.class.php:289-294 | a newsmap index counts posts alone and never adds the home page |
| Indexing.SitemapExistsIn | includes/indexer.class.php:534-544 | a file exists exactly when its ID is listed in the index and its number is at most the files listed for it |
| Indexing.Indexer.constructor | includes/indexer.class.php:88 | a fresh indexer holds no index, no files, a permalink total of -1, and has not just built its index |
| Indexing.Indexer.UID | includes/indexer.class.php:139-149 | the UID is empty exactly for the index itself |
| Indexing.Indexer.SetNumber | includes/indexer.class.php:186-188 | the requested number becomes the one given |
| Indexing.Indexer.ContentFamily | includes/indexer.class.php:202-208 | the family is never empty, and it is the classified family once there is one |
| Indexing.Indexer.GetMaxPermalinksPerSitemap | includes/indexer.class.php:260-268 | the figure is the stored option, read once and kept |
| Indexing.Indexer.GetContentType | includes/indexer.class.php:155-180 | a content type already settled is returned as it is; otherwise it is the requested ID, or for the index the first public post type listed, falling back to 'page' for the sitemap and 'post' for the newsmap |
| Indexing.Indexer.GetTotalNumberOfSitemaps | includes/indexer.class.php:214-222 | with a running total of 0 and a non-empty index, the total becomes the sum of the index's values; otherwise it is left as it is |
| Indexing.Indexer.UpdateIndex | includes/indexer.class.php:465-492 | the three fields end as the fold over the counters says, with the permalink bump |
| Indexing.Indexer.CountCustomPosts | includes/indexer.class.php:304-352 | the tally grows by the post counters, plus the home page for a sitemap without a static front page, and the post types list by the included public post types |
| Indexing.Indexer.CountAuthorsPages | includes/indexer.class.php:414-449 | authors are counted exactly when budget is left and the authors' sitemap is included |
| Indexing.Indexer.CountTaxonomyPages | includes/indexer.class.php:358-408 | taxonomies are counted exactly when budget is left and some public taxonomy is included |
| Indexing.Indexer.BuildIndex | includes/indexer.class.php:274-299 | a stored index is loaded with nothing counted and nothing written; otherwise everything is counted and the index is stored under the slug's key |
| Indexing.Indexer.SitemapIDIsValid | includes/indexer.class.php:498-528 | the ID is valid exactly when it is 'authors', a public post type or a public taxonomy; the family is set to match, and an invalid ID is cleared |
| Indexing.Indexer.RequestedSitemapExists | includes/indexer.class.php:534-544 | after building the index, the answer is whether the requested file is listed; a stored index is loaded with the totals and the store left as they were, and otherwise everything is counted and the index stored under the slug's key |
| Indexing.FirstIndexedAt | includes/indexer.class.php:169-175 | the first listed public post type is the one the loop stops at |
| Indexing.FirstIndexedNone | includes/indexer.class.php:169-175 | when no public post type is listed, none is found |
| Images.ImageElement.Make | includes/builders/image-element.class.php:55-67 | the URL is escaped; title and caption are sanitised when they are non-empty and kept as given otherwise; there is no attachment ID |
| Images.ImageElement.FromAttachment | includes/builders/image-element.class.php:75-89 | the image takes the attachment's ID and title, with no URL; the caption is the excerpt when set, else the content, and the URL resolves to the attachment's |
| Images.ImageElement.Url | includes/builders/image-element.class.php:108-114 | the URL is looked up once by attachment ID and then kept, so every call yields the same URL; a URL already held, or an image without an ID, is left as it is |
| GoogleSitemap.SignedTwoDigits | includes/builders/google-sitemap-builder.class.php:62 | the hour offset is rendered with a sign and at least two digits |
| GoogleSitemap.TimezoneString | includes/builders/google-sitemap-builder.class.php:62 | the timezone suffix is at least six characters and ends in ":00" |
| GoogleSitemap.TimezoneRoundTrip | includes/builders/google-sitemap-builder.class.php:61-62 | the suffix reads back as the offset it was made from, so distinct offsets give distinct suffixes |
| GoogleSitemap.MysqlOffset | includes/builders/google-sitemap-builder.class.php:74-82 | the query offset of a file is never negative |
| GoogleSitemap.Window | includes/builders/google-sitemap-builder.class.php:74-82 | a LIMIT/OFFSET window never holds more rows than its limit |
| GoogleSitemap.WindowSplit | includes/builders/google-sitemap-builder.class.php:74-82 | two adjacent windows together are one window |
| GoogleSitemap.FileWindowsAreContiguous | includes/builders/google-sitemap-builder.class.php:74-82 | file n + 1 starts exactly where file n ends, and files 0 and 1 both start at row 0 |
| GoogleSitemap.FilesCoverRows | includes/builders/google-sitemap-builder.class.php:74-82 | files 1 to k together read exactly the first k times m rows, each row once and in order |
| GoogleSitemap.PreviousFiles | includes/builders/google-sitemap-builder.class.php:77-78 | file k starts after k - 1 full files |
| GoogleSitemap.CollapseIsCollapsed | includes/builders/google-sitemap-builder.class.php:93 | `Collapse`: folding blank runs leaves no line break, no tab and no two spaces in a row, and a leading blank becomes one space |
| GoogleSitemap.CollapsedSlice | includes/builders/google-sitemap-builder.class.php:93-94 | any slice of folded text is still folded |
| GoogleSitemap.PreparedTextIsClean | includes/builders/google-sitemap-builder.class.php:93-94 | the collapsed and truncated text, before escaping, holds no line break, no tab and no double space, and is at most the maximum length plus the three dots of an ellipsis |
| GoogleSitemap.TruncationKeepsCollapsed | includes/builders/google-sitemap-builder.class.php:94 | truncating folded text keeps it folded and bounds its length by the maximum plus three |
| GoogleSitemap.TrimCollapsed | library/functions.php:94 | trimming folded text keeps it folded |
| GoogleSitemap.ShortenedCollapsed | library/functions.php:97-106 | shortening folded text keeps it folded and bounds its length by the maximum plus three |
| GoogleSitemap.EllipsisKeepsCollapsed | library/functions.php:105-106 | appending an ellipsis to folded text that does not end a sentence keeps it folded |
| Builders.ImagesOfAppend | includes/builders/sitemap-builder.class.php:193-196 | the image elements of two lists of entries are those of the first followed by those of the second |
| Builders.ImagesOfStep | includes/builders/sitemap-builder.class.php:193-196 | an image entry adds its image to those found so far; any other entry is skipped |
| Builders.EmittedGrows | includes/builders/sitemap-builder.class.php:193-219 | while fewer than 1000 images have been found, the next one is among those emitted |
| Builders.EmittedIsPrefix | includes/builders/sitemap-builder.class.php:217-219 | once 1000 images have been found, they are exactly the images emitted |
| Builders.Emitted | includes/builders/sitemap-builder.class.php:193-219 | the images emitted are the first image elements of the list, all of them when there are at most 1000 and exactly 1000 otherwise |
| Builders.Entries | includes/builders/sitemap-builder.class.php:349 | a list of image elements is a list of image entries, one for one |
| Builders.NoImages | includes/builders/sitemap-builder.class.php:245-253 | a post without images emits no image |
| Builders.DataOf | includes/builders/sitemap-builder.class.php:198-202 | each emitted image shows its resolved URL, its title and its caption, one for one |
| Builders.RenderedStep | includes/builders/sitemap-builder.class.php:201-215 | the image blocks of one more image are the blocks so far followed by its block |
| Builders.ImageBlocksOf | includes/builders/sitemap-builder.class.php:193-223 | the image loop writes the block of each emitted image in order and counts at most 1000 images |
| Builders.ImageLoopStep | includes/builders/sitemap-builder.class.php:193-219 | the image the loop meets next is the next image emitted |
| Builders.ImageLoopEnd | includes/builders/sitemap-builder.class.php:217-220 | when the loop ends, its count is the number of images emitted |
| Builders.IDs | includes/builders/sitemap-builder.class.php:308 | the queried IDs are the IDs of the rows, in order |
| Builders.GroupedFindsEveryRow | includes/builders/sitemap-builder.class.php:305-312 | every queried post is found under its post type and ID, and what is found there has that type and ID |
| Builders.UnsetPage | includes/builders/sitemap-builder.class.php:393 | after `unset`, the page is no longer found among the queried pages |
| Builders.UnsetPageKeepsOthers | includes/builders/sitemap-builder.class.php:393 | removing a page leaves every other page and every other post type as it was |
| Builders.SitemapBuilder.constructor | includes/builders/google-sitemap-builder.class.php:56-82 | the capacity is the indexer's permalinks per file; the style holds the `%+03d:00` timezone suffix of the GMT offset and a line break only under debugging, and every element is written as `ElementText` in that style; the offset in seconds comes from the GMT offset and the MySQL offset from the file number and the capacity; the output, counters and queried data start empty |
| Builders.SitemapBuilder.IncrementItemsCounter | includes/builders/builder-core.class.php:160-173 | the item count goes up by one, so the capacity left (the capacity less the items built) goes down by one |
| Builders.SitemapBuilder.GetPageTemplateLastmod | includes/builders/sitemap-builder.class.php:435-447 | the template's local modification time is used only when it is later than the default date; otherwise the default date is kept |
| Builders.SitemapBuilder.BuildURLElement | includes/builders/sitemap-builder.class.php:157-226 | the output gains exactly one `<url>` element, `ElementText`: `<loc>` with the escaped URL, a `<lastmod>` line only for a set date whose timestamp is not 0, one `<image:image>` block per emitted image (at most 1000) with its title and caption only when set, each prepared to 70 and 160 characters, then `</url>`; one more item, the emitted images counted, and the current ID reset |
| Builders.SitemapBuilder.PostElements | includes/builders/sitemap-builder.class.php:244-264 | one element for each post of a group |
| Builders.SitemapBuilder.PostElementsStep | includes/builders/sitemap-builder.class.php:244-264 | the elements of one more post are those so far followed by that post's element |
| Builders.SitemapBuilder.GroupElements | includes/builders/sitemap-builder.class.php:241-265 | one element for each queried post, over all groups |
| Builders.SitemapBuilder.HomeElements | includes/builders/sitemap-builder.class.php:362-391 | exactly one home element, at the escaped home URL, in the unnumbered file of pages, and none otherwise |
| Builders.SitemapBuilder.BlogElements | includes/builders/sitemap-builder.class.php:402-422 | exactly one blog element when the blog page is among the queried pages, and none otherwise |
| Builders.SitemapBuilder.BuildHomePageElement | includes/builders/sitemap-builder.class.php:359-394 | the output gains the text of the home element when it is due, with its images counted, and the front page is taken out of the queried pages |
| Builders.SitemapBuilder.BuildBlogPageElement | includes/builders/sitemap-builder.class.php:399-423 | when the blog page is among the queried pages, the output gains its `<url>` text (its permalink, the newest queried post's date or its own, its images) and the counters grow by one item and its images; the blog page is no longer among the queried pages |
| Builders.SitemapBuilder.QueryPosts | includes/builders/sitemap-builder.class.php:276-322 | posts are found exactly when the window is not empty; then their IDs are recorded in order and each post is grouped under its type and ID |
| Builders.SitemapBuilder.QueryImages | includes/builders/sitemap-builder.class.php:327-354 | every post's images are made, in query order, from the image attachments whose parent is that post |
| Builders.SitemapBuilder.BuildPostsElements | includes/builders/sitemap-builder.class.php:232-270 | posts are found exactly when the file's window is not empty; then the output gains the text of the home, blog and post elements of the window, each post with the images of its own image attachments, the items and images are counted, and the queried data are cleared; with none found, output and counters are unchanged |
| Builders.SitemapBuilder.BuildWindowElements | includes/builders/sitemap-builder.class.php:238-266 | once posts are found, the images query and the element loops append the text of the window's home, blog and post elements and count them with their images |
| Builders.SitemapBuilder.BuildQueriedElements | includes/builders/sitemap-builder.class.php:240-265 | the home element, then the blog element, then every remaining queried post, appended in that order with their images counted |
| Builders.SitemapBuilder.BuildQueriedPostsElements | includes/builders/sitemap-builder.class.php:241-265 | the posts loop appends the `<url>` text of every queried post, group by group, and counts the items and their images |
| Builders.SitemapBuilder.BuildGroupElements | includes/builders/sitemap-builder.class.php:244-264 | the inner loop appends the `<url>` text of each post of the group, in order, a page dated by its template too, and counts the items and their images |
| Builders.SitemapBuilder.BuildPostElement | includes/builders/sitemap-builder.class.php:247-263 | one post's `<url>` text, with its permalink, its date (for a page the later of its template's and its own) and the images of its attachments, is appended and counted |
| Builders.SitemapBuilder.AuthorElements | includes/builders/sitemap-builder.class.php:468-473 | one element for each author in the window |
| Builders.SitemapBuilder.TermElements | includes/builders/sitemap-builder.class.php:529-533 | one element for each term in the window |
| Builders.SitemapBuilder.BuildAuthorsPagesElements | includes/builders/sitemap-builder.class.php:452-474 | the output gains the `<url>` text of each author of the file's window, in query order; one item per author and no image |
| Builders.SitemapBuilder.BuildAuthorRows | includes/builders/sitemap-builder.class.php:468-473 | the authors loop appends each author's element in order; one item each, no image |
| Builders.SitemapBuilder.BuildAuthorElement | includes/builders/sitemap-builder.class.php:469-472 | the author's posts URL and the date of their newest post are appended as one element |
| Builders.SitemapBuilder.BuildTaxonomyPagesElements | includes/builders/sitemap-builder.class.php:480-534 | the output gains the `<url>` text of each term of the file's window, in query order; one item per term and no image |
| Builders.SitemapBuilder.BuildTermRows | includes/builders/sitemap-builder.class.php:529-533 | the terms loop appends each term's element in order; one item each, no image |
| Builders.SitemapBuilder.BuildTermElement | includes/builders/sitemap-builder.class.php:530-532 | the term's link and the date of its newest post are appended as one element |
| Builders.SitemapBuilder.RunBuildingProcess | includes/builders/sitemap-builder.class.php:115-136 | the output gains the text of the elements the content family plans (posts with the home and blog elements, terms or authors), the home element alone when the post family found no posts, and nothing for another family; the counters grow by those elements and their images |
| Builders.SitemapBuilder.Build | includes/builders/builder-core.class.php:126-132 | the returned output is the old output followed by the text of the planned elements; items and images are counted, and the metrics record the queries made and the items built |
| Builders.SitemapBuilder.StartCounters | includes/builders/builder-core.class.php:142-145 | the query metric starts at minus the current query count |
| Builders.SitemapBuilder.StopCounters | includes/builders/builder-core.class.php:150-154 | the item metric records the items, and the query metric gains the final query count |
| Builders.SitemapBuilder.GetMetrics | includes/builders/sitemap-builder.class.php:105-109 | the metrics gain the image count and are returned |
| Builders.SitemapBuilder.HomePageFirst | includes/builders/sitemap-builder.class.php:115-136 | the unnumbered `page` file always opens with the home element, whether or not posts were found |
| Builders.SitemapBuilder.PostsOpenWithHome | includes/builders/sitemap-builder.class.php:238-243 | the elements built from found posts open with the home element |
| Builders.AppendedSnoc | includes/builders/sitemap-builder.class.php:175-223 | writing one more element adds its text at the end of the output |
| Builders.AppendedAppend | includes/builders/sitemap-builder.class.php:175-223 | writing elements in two runs gives the output of writing them all in one |
| Builders.AppendedKeepsPrefix | includes/builders/sitemap-builder.class.php:175-223 | writing elements never changes the output written before them |
| Builders.AddImageStep | includes/builders/sitemap-builder.class.php:341-350 | adding the image of the next attachment keeps every post's images made from its children |
| SiteTreeCore.IsKeyChar | includes/core.class.php:263 | the characters a sanitised key may hold: lower-case letters, digits, underscore and dash |
| SiteTreeCore.SanitizeKey | includes/core.class.php:263 | the sanitised option is a key and no longer than what was stored |
| SiteTreeCore.SanitizeKeyKeepsKeys | includes/core.class.php:263 | a value that is already a key is left as it is |
| SiteTreeCore.SanitizeKeyIdempotent | includes/core.class.php:263 | sanitising twice is the same as sanitising once |
| SiteTreeCore.SanitizeKeyIgnoresCase | includes/core.class.php:263 | the sanitised key does not depend on the case of ASCII letters |
| SiteTreeCore.GetSitemapFilename | includes/core.class.php:262-266 | the file name is always a non-empty key, and "sitemap" when the option was never saved |
| SiteTreeCore.FilenameOfSavedKey | includes/core.class.php:262-266 | a saved non-empty key is the file name as it is, and saving the file name back leaves it unchanged |
| SiteTreeCore.IsSitemapActive | includes/core.class.php:274-280 | the Site Tree page is active exactly when a page is chosen for it; any other sitemap exactly when its flag is set |
| SiteTreeCore.RulesLayout | includes/core.class.php:232-255 | `RulesOf`: stylesheet rules come first, then the newsmap's when it is active, then the sitemap's; with the newsmap's file name the sitemap's rules take the newsmap's places |
| SiteTreeCore.NumberTail | includes/core.class.php:247 | the number captured after the file name is made of digits only |
| SiteTreeCore.NumberedMatch | includes/core.class.php:240-247 | a numbered-file pattern captures an ID made of lower-case letters and underscores, and a number made of digits |
| SiteTreeCore.RouteFindsAnyMatch | includes/core.class.php:255 | `Route`: a path is routed exactly when some rule's pattern matches it |
| SiteTreeCore.FrontSkips | includes/core.class.php:233-241 | the stylesheet rules, and the newsmap's when active, pass on a path that none of their patterns match |
| SiteTreeCore.RouteIsFirstMatch | includes/core.class.php:255 | `Route`: a path is rewritten by the first rule whose pattern matches it |
| SiteTreeCore.RouteAppend | includes/core.class.php:255 | rules put ahead of others decide every path one of them matches; the others decide the rest |
| SiteTreeCore.QueryArgs | includes/core.class.php:325-333 | the query has `sitetree` first, `id` exactly when the ID is non-empty, and `paged` exactly when the number is above 1, holding that number |
| SiteTreeCore.SitemapURL | includes/core.class.php:290-353 | with permalinks the URL is the home URL of the file's path; without them, the home URL with the query arguments; an unknown slug gives "" |
| SiteTreeCore.SiteTreeURL | includes/core.class.php:337-349 | the Site Tree page's URL is its permalink, with `page/n/` or a `paged` argument only from page 2 on |
| SiteTreeCore.NumberedPathMatches | includes/core.class.php:247 | the path of a numbered file of an ID in `[_a-z]+` is matched by its own rule, capturing that ID and number |
| SiteTreeCore.NumberedPathSkips | includes/core.class.php:233-246 | a numbered file's path is taken by no stylesheet rule and no index rule of another name |
| SiteTreeCore.SitemapRulesRoute | includes/core.class.php:246-247 | the sitemap's rules route the path of each of its files back to its ID and number |
| SiteTreeCore.SitemapFileRoute | includes/core.class.php:232-248 | all the rules together route a sitemap file's path back to its ID and number, unless the newsmap's rules can take it |
| SiteTreeCore.NewsmapFileRoute | includes/core.class.php:232-248 | all the rules together route a newsmap file's path back to its ID and number, unless the sitemap uses the newsmap's file name |
| SiteTreeCore.SitemapIndexRoute | includes/core.class.php:232-248 | the sitemap index's path is routed to the index |
| SiteTreeCore.NewsmapIndexRoute | includes/core.class.php:232-248 | the newsmap index's path is routed to the newsmap index |
| SiteTreeCore.SitemapFileRoundTrip | includes/core.class.php:307-322 | with permalinks, the path `sitemapURL` gives a file of an ID in `[_a-z]+` is routed back to that ID and its number, and to no number for file 0 or 1 |
| SiteTreeCore.NewsmapFileRoundTrip | includes/core.class.php:307-322 | the same round trip for the newsmap's files |
| SiteTreeCore.SitemapIndexRoundTrip | includes/core.class.php:296-301 | the path of the sitemap index is routed back to the index |
| SiteTreeCore.NewsmapIndexRoundTrip | includes/core.class.php:304 | the path of the newsmap index is routed back to the newsmap index |
| SiteTreeCore.SharedPaths | includes/core.class.php:238-248 | the first file of a content type named "news" under the default file name is routed to the newsmap index, and a sitemap under the newsmap's file name takes over the newsmap index's path |
| SiteTreeCore.KeyIdsNotRouted | includes/core.class.php:247 | as written, the file URLs of the content types "book-review" and "type2" are routed by no rule |
| SiteTreeCore.ExampleIdsAreKeys | includes/core.class.php:247 | both IDs of that example are valid WordPress keys |
| SiteTreeCore.DigitIdNotRouted | includes/core.class.php:247 | as written, a dashless ID holding a character outside `[_a-z]` has its file routed by no rule |
| SiteTreeCore.DashedIdNotRouted | includes/core.class.php:247 | as written, an ID with a dash has its file routed by no rule when the text after the dash does not start with 's' |
| SiteTreeCore.UnroutedSitemapFile | includes/core.class.php:246-247 | an ".xml" path whose text before its first dash is not an ID, or is not followed by the file name, is routed by no rule |
| SiteTreeCore.SuffixMatch | includes/core.class.php:247 | the corrected match captures an ID that is any non-empty key, and a number of digits only |
| SiteTreeCore.NumberedStem | includes/core.class.php:247 | a numbered stem splits into a key ID and a non-empty run of digits |
| SiteTreeCore.PlainStem | includes/core.class.php:247 | an unnumbered stem splits into a key ID and no number |
| SiteTreeCore.SuffixMatchRoundTrip | includes/core.class.php:247 | the corrected match gives back every key ID and number, for a file name that does not end in a digit |
| SiteTreeCore.CorrectedSitemapRulesRoute | includes/core.class.php:246-247 | with the corrected match and only the sitemap active, each file of each key ID is routed back to it |
| SiteTreeCore.CorrectedSitemapFileRoundTrip | includes/core.class.php:307-322 | with the corrected match, the URL path of every file of every key ID is routed back to that ID and number |
| SiteTreeCore.AnyHostMatch | includes/core.class.php:397-401 | the scan finds a match exactly when some pattern matches the host |
| SiteTreeCore.IsWebsiteLocal | includes/core.class.php:373-404 | never local under debugging; always local for a site URL without a dot; otherwise local exactly when the host matches a known local pattern |
| SiteTreeCore.LocalHosts | includes/core.class.php:384-401 | hosts ending in ".local", ".localhost", ".test", ".staging" or ".stage", or starting with "dev.", "stage." or "staging.", in any letter case, are local, and no other host is |
| SiteTreeCore.FlushCachedData | includes/core.class.php:410-436 | the slug's index is deleted and its metrics are marked stale; for the Advanced page the index deleted is its own but the metrics marked are the sitemap's |
| Delegate.Dispatch | includes/core-delegate.class.php:149-238 | the decision table of `wpWillSendHeaders`, row by row: no sitemap exactly for a slug other than `sitemap` and `newsmap`; a request without an ID, or a query-argument request under permalinks, is redirected to the collection's URL; the two stylesheets are served for their IDs; the index with no number is served as the index document when more than one sitemap exists and as file 0 otherwise; an invalid ID is not found; file 1 of a valid ID is redirected to its unnumbered file; any other file of a valid ID is served when it exists and not found otherwise |
| Delegate.RequestedNumber | includes/core-delegate.class.php:205-210 | `paged > 0 ? (int) paged : 0`: 0 when unset; otherwise `(int)` of the text when PHP 8 compares it above zero, and 0 when not |
| Delegate.LeadingDigitsReading | includes/core-delegate.class.php:205-206 | `2abc` names file 2, as `(int)` reads its leading digits |
| Delegate.SpacedReading | includes/core-delegate.class.php:205-206 | ` 2abc` names file 0, as PHP 8 compares that text below "0" |
| Delegate.SpaceIgnored | includes/core-delegate.class.php:205 | a leading space changes neither whether a text is numeric nor its value |
| Delegate.PlainFileRequest | includes/core-delegate.class.php:150-210 | the query arguments of file i read back as a request for that slug, ID and file number |
| Delegate.WillSendHeaders | includes/core-delegate.class.php:149-238 | an indexer is made exactly for a sitemap or newsmap request with an ID, and the response is the dispatch decision over what that indexer answers; the file served is the requested number, read from `paged` as `(int)` when it is above zero; the index is built only for the stylesheet, the index and a file of a valid ID other than file 1, and then it is the stored index under the slug's key, with the store untouched, or else the fresh count, stored under that key; every other request leaves the store as it was; the total behind the stylesheet and the index is the stored index added up or the count's total, which is the sum of the index's values when the count queries name distinct content types |
| Delegate.BuildIndexAndTotal | includes/core-delegate.class.php:215-217 | on a fresh indexer, the total is the stored index added up, with the store untouched, or else the total of a fresh count whose index is stored under the slug's key; with distinct content types in the count queries it is the sum of the index's values |
| Delegate.ArgsOfQuery | includes/core-delegate.class.php:150-156 | WordPress reads back from a URL's query arguments the slug, the ID when it is non-empty, and the number when it is above 1 |
| Delegate.RequestedNumberOfFile | includes/core-delegate.class.php:205-210 | the number the indexer is given for file i is i, except 0 for the unnumbered file |
| Delegate.FileRoute | includes/core-delegate.class.php:197-212 | under the stated conditions the rewrite rules route every file of an ID back to its query |
| Delegate.ListedFileServed | includes/core-delegate.class.php:214-238 | under permalinks, every file the index lists for a valid content type has a URL that is routed back to it, and the dispatch serves that file |
| Delegate.IndexRedirectSettles | includes/core-delegate.class.php:158-162 | under permalinks, the redirect to the slug's root lands on a path routed to the index, which is served as the index document or as the only sitemap |
| Delegate.FileRedirectSettles | includes/core-delegate.class.php:222-226 | under permalinks, the redirect of file 1 lands on the unnumbered file, which is served or not found but not redirected again |
| Delegate.PlainIndexRedirectsToItself | includes/core-delegate.class.php:158-162 | as written, without permalinks the index URL carries no ID, and a request without an ID is redirected to the index URL: the request is redirected to the URL it came from |
| Delegate.CorrectedSitemapURL | includes/core.class.php:325-335 | with the corrected arguments, every sitemap or newsmap URL without permalinks names an ID |
| Delegate.CorrectedPlainIndexServed | includes/core-delegate.class.php:214-220 | with the corrected arguments, the plain index URL is served as the index document or as the only sitemap |
| Delegate.PlainListedFileServed | includes/core-delegate.class.php:214-238 | without permalinks, every file the index lists for a valid content type is served from its query arguments |
| Delegate.FileURLs | includes/core-delegate.class.php:274-278 | one URL for each of the files 1 to n |
| Delegate.IndexURLsCount | includes/core-delegate.class.php:273-279 | the index document lists exactly one URL per file the index counts |
| Delegate.FileURLsAt | includes/core-delegate.class.php:274-278 | the i-th URL of a content type is the URL of its file i |
| Delegate.IndexListsEveryFile | includes/core-delegate.class.php:273-279 | `IndexURLs`: every file 1 to n of every content type of the index is listed |
| Delegate.IndexListsOnlyFiles | includes/core-delegate.class.php:273-279 | `IndexURLs`: every listed URL is that of a file 1 to n of a content type of the index |
| Delegate.EntriesAppend | includes/core-delegate.class.php:275-277 | appending one entry to the markup gives the entries of the longer list |
| Delegate.FileEntryStep | includes/core-delegate.class.php:274-278 | the entry of file i extends the entries of the files before it |
| Delegate.IndexURLsStep | includes/core-delegate.class.php:273-279 | once the inner loop has listed a content type's files, the markup covers the index up to that content type |
| Delegate.ServeSitemapIndex | includes/core-delegate.class.php:259-281 | the index markup is the header, one entry for each listed file in index and file order, and the closing tag; the line break is empty unless debugging |
| DelegateMetrics.RowsWellFormedUpdate | includes/core-delegate.class.php:462 | writing a well-formed row keeps all rows well formed |
| DelegateMetrics.StoredRowWellFormed | includes/core-delegate.class.php:386 | the row read for a slug is well formed |
| DelegateMetrics.RecordFacts | includes/core-delegate.class.php:414-415 | recording a per-document value sets exactly that value and keeps the row well formed |
| DelegateMetrics.AverageOwn | includes/core-delegate.class.php:507-523 | averaging one metric stores the rounded-up mean of its values under its `avg_` key and removes the metric's own entry |
| DelegateMetrics.AverageOther | includes/core-delegate.class.php:507-523 | averaging one metric keeps every other entry |
| DelegateMetrics.AverageKeysDiffer | includes/core-delegate.class.php:509 | distinct metrics have distinct average keys |
| DelegateMetrics.AveragedAt | includes/core-delegate.class.php:504-525 | after averaging, each per-document metric's mean, rounded up, is under its `avg_` key, and the metric's own entry is gone |
| DelegateMetrics.AveragedKeeps | includes/core-delegate.class.php:504-525 | averaging keeps every entry that is neither a per-document metric nor one of their averages |
| DelegateMetrics.ComputeAverages | includes/core-delegate.class.php:504-525 | the sum-and-count loops leave the row averaged as specified, with the per-document arrays kept |
| DelegateMetrics.RecordedFacts | includes/core-delegate.class.php:410-415 | the builder's metrics become the latest values and the served document's values, and no other document's value changes |
| DelegateMetrics.MergedMetricsFresh | includes/core-delegate.class.php:459-462 | every written row is well formed, marked fresh and stamped with the time of the write |
| DelegateMetrics.MetricsWrittenUnlessFresh | includes/core-delegate.class.php:388-457 | a row is written exactly for the sitemap, the newsmap and the Site Tree, and only when the stored metrics are stale or do not yet hold the served document; fresh metrics never re-measure the index |
| DelegateMetrics.MetricsMeasuredOnce | includes/core-delegate.class.php:394-398 | once a document is measured, another request for it writes nothing until the metrics are marked stale |
| DelegateMetrics.MergedMetricsRecordDocument | includes/core-delegate.class.php:409-415 | the builder's metrics are stored under the served document and no other document's value changes; serving the index leaves the per-document arrays as they were |
| DelegateMetrics.MergedShape | includes/core-delegate.class.php:400-462 | a written row is the totals, then the builder's metrics and their averages, then the stamp |
| DelegateMetrics.MergedMetricsTotals | includes/core-delegate.class.php:400-407 | the totals are recorded when the index or the pagination has just been built, images for the sitemap only and pages for the Site Tree; otherwise each total is carried over unchanged |
| DelegateMetrics.MergedMetricsAverages | includes/core-delegate.class.php:417-422 | with more than one document, the averages of both document metrics replace the latest values; otherwise the latest values stay and no average is kept |
| DelegateMetrics.UpdateMetrics | includes/core-delegate.class.php:378-465 | the slug's row is replaced by the merged row exactly when one is written, nothing else in the store changes, and the result says whether it wrote |
| Ping.FailedEngines | admin/ping-state.class.php:138-145 | the engines that failed are at most as many as the replies |
| Ping.FoldedCode | admin/ping-state.class.php:127-147 | `Folded`: the code `update` ends with is `succeeded` when every reply is `'200'`, `no_{engine}` when exactly one engine failed, and `failed` when two or more did; the failure flag is set exactly when some reply failed |
| Ping.FoldedTimeNone | admin/ping-state.class.php:130-137 | with no `'200'` reply the latest time is left as it was |
| Ping.FoldedTimeLast | admin/ping-state.class.php:130-137 | `Folded`: otherwise the latest time is that of the last `'200'` reply, even one after a failure |
| Ping.FailedEnginesAreEngines | admin/ping-state.class.php:138-145 | every failed engine sent a reply that was not `'200'`, and none failed exactly when every reply was `'200'` |
| Ping.PingFailedAfterReplies | admin/ping-controller.class.php:220-255 | after a round of replies from known engines, the admin page reports a failure exactly when some reply was not `'200'` |
| Ping.MaxTime | admin/ping-state.class.php:117 | the latest time is one of the old times and no old time is later |
| Ping.PingState.constructor | admin/ping-state.class.php:25-51 | a new state has the given sitemap ID, the code `no_pings_yet`, a latest time of 0 and no old times |
| Ping.PingState.Restored | admin/ping-controller.class.php:84 | a state read back from the store holds the persisted fields |
| Ping.PingState.SetSitemapID | admin/ping-state.class.php:59-61 | the sitemap ID becomes the one given |
| Ping.PingState.SetCode | admin/ping-state.class.php:75-77 | the code becomes the one given |
| Ping.PingState.RegisterTime | admin/ping-state.class.php:90-92 | the latest time becomes the current time |
| Ping.PingState.SetLatestTime | admin/ping-state.class.php:98-100 | the latest time becomes the one given |
| Ping.PingState.ResetTimes | admin/ping-state.class.php:116-119 | with old times, the latest time becomes the largest of them and they are dropped; with none, `max` throws and nothing changes |
| Ping.PingState.Update | admin/ping-state.class.php:127-147 | `Updated`: the code and latest time become what the fold of the replies gives, and the sitemap ID is left as it is |
| Ping.MinTimeBetweenPings | admin/ping-controller.class.php:69-75 | 30 minutes between manual pings of the sitemap and 5 minutes for the newsmap |
| Ping.StateOf | admin/ping-controller.class.php:82-95 | the state used for a sitemap always carries that sitemap's ID |
| Ping.Engines | admin/ping-controller.class.php:138-154 | Google is pinged unless only Bing failed last time; Bing is pinged when it alone failed last time, or by default for the sitemap |
| Ping.Replies | admin/ping-controller.class.php:194-212 | one reply per engine pinged, in order, each with that engine's status and the time of the ping |
| Ping.PingSucceeded | admin/ping-controller.class.php:156-158 | after a round that every engine answers with `'200'`, the code is `succeeded`, the latest time is the time of the round, and the next manual ping is allowed exactly once the minimum time has passed |
| Ping.PingFailedAllowsRetry | admin/ping-controller.class.php:175-188 | after a round in which some engine fails, the admin page reports the failure and a manual ping is allowed at once |
| Ping.InfoOf | admin/ping-controller.class.php:220-264 | `ping_failed` is set exactly for the codes `no_google`, `no_bing` and `failed`, and the "no ping yet" status is shown exactly for any other code but `succeeded` |
| Ping.MinutesToNextPing | admin/ping-controller.class.php:272-276 | the minutes shown are the seconds still to wait, rounded up to whole minutes |
| Ping.RefusedPingWait | admin/ping-controller.class.php:272-276 | while a manual ping is refused, the wait shown is between 0 minutes and the minimum interval |
| Ping.Words | admin/ping-controller.class.php:275 | the singular wording is used exactly for one minute |
| Ping.PingController.constructor | admin/ping-controller.class.php:65-76 | a new controller holds no state, no measured time and no replies |
| Ping.PingController.GetPingState | admin/ping-controller.class.php:82-95 | the cached state is kept when it belongs to the sitemap; otherwise the stored state, or a new one, is loaded and cached |
| Ping.PingController.CanPingOnRequest | admin/ping-controller.class.php:175-188 | a manual ping is allowed exactly when the code is not `succeeded` or more than the minimum time has passed since the latest ping; the time since then is kept |
| Ping.PingController.Ping | admin/ping-controller.class.php:111-167 | nothing is sent when the filter denies, a manual ping is throttled or the site is local; otherwise the state updated with the replies is persisted under the sitemap ID, cached as the current ping state, and the replies are reset; a manual ping loads the state and measures the time since its latest ping even when refused; a ping stopped before loading leaves the cached state and time as they were |
| Ping.PingController.PingEngines | admin/ping-controller.class.php:127-166 | the loaded state, updated with the replies of the engines its code calls for, is persisted and kept as the cached ping state, the replies are reset, and the measured time is untouched |
| Ping.PingController.PingRound | admin/ping-controller.class.php:138-156 | the state ends as the fold of the replies of the engines pinged |
| Ping.PingController.SendPings | admin/ping-controller.class.php:138-154 | the replies gain one entry per engine pinged, in order |
| Ping.PingController.SendPing | admin/ping-controller.class.php:194-212 | the replies gain the engine's reply at the current time |
| Ping.PingController.GetPingInfo | admin/ping-controller.class.php:220-264 | the summary is the case analysis of the state of that sitemap |
| Ping.PingController.TimeToNextPingInWords | admin/ping-controller.class.php:272-276 | the singular wording is used exactly when one minute is left |
| Ping.RepliesAppend | admin/ping-controller.class.php:194-212 | pinging one more engine adds its reply at the end |
| DataModel.Written | data-model/data-model-classes.php:315-317 | writing entries one by one into a dictionary whose keys are distinct keeps them distinct |
| DataModel.LastWithKey | data-model/data-model-classes.php:315-317 | what is found under a key is one of the items, with that key |
| DataModel.LastWithKeyFacts | data-model/data-model-classes.php:315-317 | nothing is found exactly when no item has the key, and what is found is the last item with that key |
| DataModel.WrittenGet | data-model/data-model-classes.php:315-317 | after writing, a key finds the last item written under it, and otherwise what it found before |
| DataModel.RegisteredFacts | data-model/data-model-classes.php:306-325 | a field, or a group with an ID, is found under its own ID and nothing else changes; a group without an ID of the receiver's class leaves each of its fields findable, the last winning; distinct keys stay distinct |
| DataModel.Plains | data-model/data-model-classes.php:381 | casting the ordering to an array keeps its keys and values in order |
| DataModel.Replaced | data-model/data-model-classes.php:383-385 | each entry of the ordering keeps its place and takes the field written under its key, if any |
| DataModel.Appended | data-model/data-model-classes.php:383-385 | the fields added after the ordering's entries all have keys the ordering does not list |
| DataModel.ListedGet | data-model/data-model-classes.php:380-402 | the listed part finds a key's field exactly when the key is listed |
| DataModel.UnlistedGet | data-model/data-model-classes.php:380-402 | the rest finds a key's field exactly when the key is not listed |
| DataModel.ReorderedIsPermutation | data-model/data-model-classes.php:380-402 | reordering keeps every key's field, keeps the keys distinct, and is a permutation of the dictionary |
| DataModel.ReorderedOrder | data-model/data-model-classes.php:380-402 | the new key order is the listed keys that name a field, as listed, then the other keys, in their old order |
| DataModel.Section.constructor | data-model/data-model-classes.php:203-210 | a new section or fieldset holds the items as its fields, and its dictionary is theirs registered one by one |
| DataModel.Section.AddFields | data-model/data-model-classes.php:207-209 | the constructor's loop adds every item in turn |
| DataModel.Section.AddField | data-model/data-model-classes.php:264-268 | the item is appended to the fields and registered in the dictionary |
| DataModel.Section.UpdateFieldsDictionary | data-model/data-model-classes.php:306-325 | the dictionary becomes what registering the item gives, and the fields are left as they were |
| DataModel.Section.GetField | data-model/data-model-classes.php:276-282 | nothing is returned exactly when no item is registered under the ID, and otherwise the registered item |
| DataModel.Section.ReorderFields | data-model/data-model-classes.php:380-402 | the dictionary becomes the reordered one and the fields are its values, in the new order |
| DataModel.WriteFields | data-model/data-model-classes.php:383-385 | the first loop leaves the ordering's entries with their fields written over them, then the unlisted fields |
| DataModel.KeepObjects | data-model/data-model-classes.php:389-396 | the second loop keeps the field objects, in order, and unsets every other entry |
| DataModel.ParentSlugOf | data-model/data-model-classes.php:148-159 | the parent slug is the menu ID when that names a PHP file, and `admin.php` otherwise; it is never empty |
| DataModel.Page.constructor | data-model/data-model-classes.php:77-86 | a new page holds the values given and no parent slug yet |
| DataModel.Page.ParentSlug | data-model/data-model-classes.php:148-159 | the first call computes the parent slug and keeps it; later calls return the kept one |
| DataModel.NamespacedIDsDistinct | data-model/data-model-classes.php:99-101 | within one namespace two pages share a namespaced ID exactly when they share an ID |
| OptionFilters.DedupFacts | data-model/data-model-classes.php:694-702 | keeping the first occurrence of each ID keeps exactly the IDs met, each once |
| OptionFilters.DedupOrder | data-model/data-model-classes.php:734-741 | the nicknames kept are in the order they first occur |
| OptionFilters.SortFacts | data-model/data-model-classes.php:708 | `sort(..., SORT_NUMERIC)` keeps the same elements and their count, ascending, and keeps distinct elements distinct |
| OptionFilters.SortOfSorted | data-model/data-model-classes.php:708 | sorting an ascending list leaves it as it is |
| OptionFilters.StringOf | data-model/data-model-classes.php:686 | every scalar has a string form, an array has none, and a truthy scalar's string is truthy |
| OptionFilters.ParseNumeral | data-model/data-model-classes.php:696 | what `is_numeric` accepts is a sign, digits and an optional fraction |
| OptionFilters.NumeralPositive | data-model/data-model-classes.php:697 | a numeral is above zero exactly when it has no minus sign and a nonzero digit |
| OptionFilters.CastPositive | data-model/data-model-classes.php:699 | `(int)` is above zero exactly when the whole part is, and then the numeral was above zero too |
| OptionFilters.ParseIntString | data-model/data-model-classes.php:696-699 | a decimal integer, alone or behind one space, is numeric and casts back to itself |
| OptionFilters.Condition | data-model/data-model-classes.php:632-638 | `isset` of a condition yields only values that are not null |
| OptionFilters.PositiveNumberAgreement | data-model/data-model-classes.php:628-640 | `PositiveNumberAsWritten` and `PositiveNumber`: with at most one bound the corrected filter is the filter as written; with both, it accepts no more |
| OptionFilters.PositiveNumberIgnoresMax | data-model/data-model-classes.php:632-639 | `PositiveNumberAsWritten` and `PositiveNumber`: with a minimum of 20 and a maximum of 512 the filter as written accepts 1000; the corrected one does not |
| OptionFilters.PositiveNumberSound | data-model/data-model-classes.php:628-640 | `PositiveNumber`: a value the corrected filter accepts is numeric, above zero and within every bound given |
| OptionFilters.OffsetOf | data-model/data-model-classes.php:650 | every scalar is usable as an offset, an array is not |
| OptionFilters.ChoiceOfDecimal | data-model/data-model-classes.php:649-651 | a choice sent as a decimal string is the same choice as the integer |
| OptionFilters.ChoiceListed | data-model/data-model-classes.php:649-651 | `Choice`: a value is accepted exactly when the choices list it with a value that is not null |
| OptionFilters.Bool | data-model/data-model-classes.php:659-672 | accepted exactly for a bool, `'1'`, `'0'` and `''`, stored as the bool PHP reads it as |
| OptionFilters.BoolIdempotent | data-model/data-model-classes.php:659-672 | what the bool filter stores, it accepts again unchanged |
| OptionFilters.Key | data-model/data-model-classes.php:795-797 | the key filter never changes the value |
| OptionFilters.KeyAccepts | data-model/data-model-classes.php:795-797 | a string is accepted exactly when it is made of letters, digits and dashes |
| OptionFilters.IdOf | data-model/data-model-classes.php:696-700 | an ID kept is above zero |
| OptionFilters.IdOfAsWritten | data-model/data-model-classes.php:696-700 | `IdAsWritten`: every ID the corrected reading keeps, the reading as written keeps too |
| OptionFilters.ListedIdsFacts | data-model/data-model-classes.php:694-708 | `ListOfIds`: the IDs stored are strictly ascending and are exactly the IDs the pieces give |
| OptionFilters.IdsOfJoined | data-model/data-model-classes.php:686 | splitting the `", "`-join of positive decimals at the commas reads back the same IDs |
| OptionFilters.ListOfIdsIdempotent | data-model/data-model-classes.php:680-712 | what the ID filter stores, it accepts again and stores unchanged |
| OptionFilters.IdsFilterIdempotent | data-model/data-model-classes.php:680-712 | the same for any reading of the pieces that reads decimals back and keeps only positive IDs |
| OptionFilters.ListedPositive | data-model/data-model-classes.php:694-708 | the IDs listed are positive and strictly ascending |
| OptionFilters.StoredIdsKept | data-model/data-model-classes.php:680-712 | a stored list of ascending positive IDs passes unchanged |
| OptionFilters.ListOfIdsAsWrittenKeepsZero | data-model/data-model-classes.php:696-700 | as written, a piece that is numeric and above zero but casts to 0, such as `0.5`, stores the ID 0, which the next save drops |
| OptionFilters.IdAsWrittenHalf | data-model/data-model-classes.php:696-700 | `IdAsWritten`: as written, `0.5` gives the ID 0 |
| OptionFilters.Nicknames | data-model/data-model-classes.php:734-741 | every nickname kept is made of letters, digits, `_` and `-` |
| OptionFilters.ListOfNicknamesFacts | data-model/data-model-classes.php:733-742 | `ListOfNicknames`: the nicknames stored are distinct, are exactly the valid trimmed pieces, and keep the order of first occurrence |
| OptionFilters.ListOfNicknamesIdempotent | data-model/data-model-classes.php:720-750 | what the nickname filter stores, it accepts again and stores unchanged |
| OptionFilters.StoredNicknamesKept | data-model/data-model-classes.php:720-750 | a stored list of distinct nicknames passes unchanged |
| OptionFilters.NicknamesRoundTrip | data-model/data-model-classes.php:733-747 | distinct nicknames joined by `", "` are read back as themselves |
| OptionFilters.WithoutUnderscores | data-model/data-model-classes.php:613 | `str_replace('_', '', ...)` leaves no underscore |
| OptionFilters.FilterForWords | data-model/data-model-classes.php:612-613 | `FilterFor`: a data type of lower-case words joined by underscores names the filter spelt by the words run together |
| OptionFilters.FilterNames | data-model/data-model-classes.php:628-797 | `FilterFor`: the data types `positive_number`, `choice`, `bool`, `list_of_ids`, `list_of_nicknames`, `inline_html`, `plain_text`, `key` and `option` each name their filter |
| OptionFilters.FilterForIgnoresCase | data-model/data-model-classes.php:612-615 | the filter a data type names does not depend on the case of its letters |
| OptionFilters.FilterForIgnoresUnderscores | data-model/data-model-classes.php:612-613 | nor on its underscores |
| OptionFilters.FilteredFallback | data-model/data-model-classes.php:615-619 | `Filtered` with `Run`: an unknown data type, or a filter that rejects the value, yields the field's default |
| OptionFilters.IdsCollected | data-model/data-model-classes.php:694-711 | after the ID loop, no ID rejects the list, and otherwise the IDs collected are sorted and joined by `", "` |
| OptionFilters.NicknamesCollected | data-model/data-model-classes.php:733-749 | after the nickname loop, no nickname rejects the list, and otherwise the nicknames collected are joined by `", "` |
| OptionFilters.OptionsFilter.constructor | data-model/data-model-classes.php:602-605 | the filter holds the value and the field |
| OptionFilters.OptionsFilter.FilterOption | data-model/data-model-classes.php:611-620 | the result is the value the named filter leaves when it accepts, and the field's default otherwise; a data type with no filter leaves the value unchanged |
| OptionFilters.OptionsFilter.FilterBool | data-model/data-model-classes.php:659-672 | accepts exactly what the bool filter accepts and stores its bool |
| OptionFilters.OptionsFilter.FilterInlineHtml | data-model/data-model-classes.php:756-779 | always accepts, storing the value with only the inline tags kept |
| OptionFilters.OptionsFilter.FilterPlainText | data-model/data-model-classes.php:785-789 | always accepts, storing the sanitised text |
| OptionFilters.OptionsFilter.FilterListOfIds | data-model/data-model-classes.php:680-712 | accepts exactly when the list gives an ID or is falsy, and stores the sorted, deduplicated IDs |
| OptionFilters.OptionsFilter.FilterListOfNicknames | data-model/data-model-classes.php:720-750 | accepts exactly when the list gives a nickname or is falsy, and stores the distinct nicknames in order |
| DataControl.FillOptionsArrayWithDefaults | data-model/data-controller.class.php:185-198 | the options come back with every default filled in, default by default |
| DataControl.FillOption | data-model/data-controller.class.php:186-197 | one pass of the loop fills in one default, recursing into an array default |
| DataControl.FilledElsewhere | data-model/data-controller.class.php:185-198 | `Filled`: a key no default has keeps what the options hold under it |
| DataControl.FilledAt | data-model/data-controller.class.php:185-198 | `Filled`: under a default's key the fill leaves what that default alone calls for |
| DataControl.FilledKeys | data-model/data-controller.class.php:185-198 | the keys afterwards are those of the options and those of the defaults |
| DataControl.FilledDistinct | data-model/data-controller.class.php:185-198 | distinct keys stay distinct |
| DataControl.FillNeverOverwrites | data-model/data-controller.class.php:185-198 | a value that is set is never overwritten: a scalar stays, and a set array only gains what the nested defaults add |
| DataControl.FillSuppliesMissing | data-model/data-controller.class.php:185-198 | a missing key gets an array filled from nothing for an array default, `false` for a boolean default, and the default itself otherwise |
| DataControl.FillLeavesTheRest | data-model/data-controller.class.php:185-198 | keys the defaults lack are left alone, no other key is added, and distinct keys stay distinct |
| DataControl.FillCoversDefaults | data-model/data-controller.class.php:185-198 | after the fill every key path of the defaults exists, as deep as the options hold arrays along it |
| DataControl.SanitisationCallback | data-model/data-controller.class.php:242-270 | the options are the submitted ones sanitised entry by entry against the section |
| DataControl.SanitiseOption | data-model/data-controller.class.php:248-266 | an entry without a field is unset; a fieldset's entry is sanitised against the fieldset; a field's is filtered and passed through the hook |
| DataControl.FilterField | data-model/data-controller.class.php:256-262 | the value is what the options filter gives for that field |
| DataControl.AsArrayWellKeyed | data-model/data-controller.class.php:243 | `(array)` of a PHP value has distinct keys, at every depth |
| DataControl.SanitisedElsewhere | data-model/data-controller.class.php:245-268 | `Sanitised`: a key no submitted entry has is left as it was |
| DataControl.SanitisedAt | data-model/data-controller.class.php:245-268 | `Sanitised`: under a submitted key: nothing without a field, the sanitised entry with one |
| DataControl.SanitisationKeepsOnlyFields | data-model/data-controller.class.php:242-270 | a key stays exactly when it was submitted and the section has a field or fieldset for it, and it then holds the sanitised entry |
| DataControl.SanitisedConforms | data-model/data-controller.class.php:242-270 | at every depth the sanitised options hold only keys with a field or fieldset, and an array under each fieldset's key |
| DataControl.DefaultsCallback | data-model/data-controller.class.php:309-323 | the defaults are those the dictionary's entries give, in dictionary order |
| DataControl.DefaultsShape | data-model/data-controller.class.php:313-320 | `Defaults`: one entry per dictionary entry, in order, each with its field's default or its fieldset's defaults |
| DataControl.DefaultsConform | data-model/data-controller.class.php:309-323 | the defaults have the shape sanitised options have |
| DataControl.PagePlansOrder | data-model/data-controller.class.php:65-82 | the dashboard comes first and the advanced settings last; the Site Tree page is listed, second, exactly when included; the IDs are distinct |
| DataControl.RegisterThenGet | data-model/data-controller.class.php:139-176 | a section registered under a truthy ID is then what asking for that ID gives, alone |
| DataControl.RegisterThenGetAll | data-model/data-controller.class.php:139-176 | registering changes a page's sections only by adding or replacing that section |
| DataControl.RegisterElsewhere | data-model/data-controller.class.php:139-176 | registering for one page changes nothing any other page gives |
| DataControl.GetSectionByID | data-model/data-controller.class.php:161-176 | `DataController.GetSections`: asking for an ID gives at most one section, that one, and nothing exactly when the page has none under the ID |
| DataControl.StoredKeyed | data-model/data-controller.class.php:139-152 | registering keeps every key distinct |
| DataControl.DataController.constructor | data-model/data-controller.class.php:46-49 | a new controller holds no pages, no sections and no page being loaded |
| DataControl.DataController.Build | data-model/data-controller.class.php:68-79 | a new page in the plugin's namespace, as its plan describes it |
| DataControl.DataController.Pages | data-model/data-controller.class.php:65-82 | the pages are built once, from the plans, with the Site Tree page included when asked for or when that sitemap is active, and then kept |
| DataControl.DataController.Page | data-model/data-controller.class.php:90-99 | nothing exactly when no page has the ID, and otherwise the first page that does |
| DataControl.DataController.RegisterSection | data-model/data-controller.class.php:139-152 | the section is stored for the page named, or the one being loaded, under its ID when truthy and appended otherwise; keys stay distinct |

## Left out

- HTTP side effects are not modelled: headers, `wp_redirect`, `exit` and the printed XML envelope. `Delegate.Dispatch` returns the decision and `Delegate.ServeSitemapIndex` returns the markup.
- Delegate.Dispatch: the stylesheets are only chosen, not built. The stylesheet builder is not part of this model.
- The network is not modelled. The URL `sendPing` builds and the `wp_remote_get` call are left out. Each engine's reply status is the `reply` parameter, and the time of a ping is the `now` parameter.
- Ping.PingController.SendPing: PHP keys the replies by engine. The model keeps them as a sequence in the order sent, since an engine is pinged at most once per round (`Ping.Engines`).
- Ping.PingController.Ping: a manual ping of a sitemap other than `sitemap` or `newsmap` is excluded by a `requires`. PHP would then read an undefined minimum interval.
- SQL is not modelled. Database queries are replaced by their result tables, taken in the order their `ORDER BY` gives. This covers the counts of the indexer, the posts, authors, terms and images of the builder, and the total number of images.
- Floating point is not modelled. The `microtime` runtimes of a build and the `round(..., 3)` of the average runtime are left out, so runtimes are carried as integers. `time_since` divides with PHP's half-up rounding on integers, and the GMT offset is a whole number of hours.
- WordPress functions are parameters of the operations that call them: `esc_url`, `get_permalink`, `home_url`, `add_query_arg`, `strtotime`, `gmdate`, `date_i18n`, `locate_template`, `filemtime`, `wp_get_attachment_url`, `parse_url`, `wp_kses`, `sanitize_text_field`, `html_entity_decode`, `strip_tags` and `htmlspecialchars`.
- `__()` is not modelled: translated strings are their English text.
- Filter hooks are parameters: `sitetree_ping_controller_can_ping` is `canPingFilter`, and `sitetree_data_controller_sanitised_option_value` is the `OptionHook`, which receives the section by its ID. Action hooks (`do_action`) are left out.
- Builders.SitemapBuilder.BuildURLElement: the builder reads an image's resolved URL. It does not call `ImageElement::url()`, so the URL that call caches on the image is not written back.
- DataModel.Section.AddField: a nested section or fieldset is added as a value, a snapshot of it when it is added. Later changes to the nested object are not seen through the outer one.
- DataControl.DataController.Page: pages are compared by ID with string equality. PHP's loose `==` would also match numeric strings such as `1` and `01`.
- Indexing.Indexer.SitemapIDIsValid: the requested ID is compared with string equality. PHP's loose `==` at includes/indexer.class.php:499, 509 and 520 would also match two distinct numeric strings such as `10` and `1e1`.
- DataControl.DataController.Pages: whether the Site Tree sitemap is active is the `siteTreeActive` parameter. The model does not call `isSitemapActive('site_tree')`. `Page::setNamespace` becomes the namespace each page is built with.
- `loadPageSections` is not modelled: it loads the settings of a page by including a PHP data file. It is also the only place that sets the page being loaded, which the model keeps at its initial value. `sanitiseOptions` and `defaultsForPage` are left out because they call it. The per-section steps they are made of are modelled (`SanitisationCallback`, `FillOptionsArrayWithDefaults`, `DefaultsCallback`).
- DataControl.FillOptionsArrayWithDefaults: a set scalar under a key whose default is an array is left as it is. PHP would go on to treat that scalar as an array.
- OptionFilters.OptionsFilter.FilterOption: a field whose data type is `option` is excluded by a `requires`. Its filter would be `filterOption` itself, which would call itself without end.
- OptionFilters.ParseNumeral: reads PHP 8's `is_numeric` for decimal numerals only. White space around the numeral is allowed, an exponent such as `1e3` is not.
- OptionFilters.IdOf: `(int)` is exact on unbounded integers. PHP's saturation at the 64-bit limits is not modelled.
- OptionFilters.PositiveNumber: a value or bound that is neither an integer nor a numeric string is rejected. PHP would compare it loosely instead.
- OptionFilters.Condition: conditions that are not an array have no entries.
- OptionFilters.IdsFilter: a truthy array given to the ID or nickname filter is rejected here. PHP 8 would throw from `explode`.
- OptionFilters.SortNumeric: `sort(..., SORT_NUMERIC)` is modelled by an insertion sort on the collected integers. Only its result, the ascending order, matters here.
- OptionFilters.OptionsFilter.FilterOption: the `positive_number` and `list_of_ids` data types run the corrected filters of the first two Findings rows (`PositiveNumber`, which enforces every bound, and `IdOf`, which keeps only IDs whose whole part is above zero). PHP keeps 1000 for bounds 20 to 512 and stores `0.5` as the ID 0; the as-written filters `PositiveNumberAsWritten` and `IdAsWritten` show this.
- OptionFilters.OptionsFilter.FilterListOfIds: uses the corrected `IdOf`, as above.
- OptionFilters.Run: runs the corrected `PositiveNumber` and `ListOfIds`, as above; so do `OptionFilters.Filtered` and `OptionFilters.ListOfIds`.
- DataControl.FilterField: a field's value goes through the corrected filters, as above.
- DataControl.SanitiseOption: a field's value goes through the corrected filters, as above.
- DataControl.SanitisationCallback: a field's value goes through the corrected filters, as above.
- DataControl.SanitisationCallback: requires every group below the section to be a fieldset. A section nested directly in a section would reach the field branch of `sanitisationCallback` (data-model/data-controller.class.php:254-262), where `filterOption` calls `dataType()` on it; only a field defines that method (data-model/data-model-classes.php:503), so PHP stops with a fatal error.
- DataControl.SanitiseOption: requires the same nesting, for the same fatal error.
- DataControl.DefaultsCallback: requires every group below the section to be a fieldset. A nested section would reach the field branch of `defaultsCallback` (data-model/data-controller.class.php:316-318), where PHP calls `defaultValue()` on it; only a field defines that method (data-model/data-model-classes.php:543), so PHP stops with a fatal error.
- Indexing.Indexer.constructor: requires a positive number of permalinks per file. With the option at 0, PHP divides by zero at includes/indexer.class.php:470.
- Delegate.WillSendHeaders: requires a positive number of permalinks per file, for the indexer it makes.
- Builders.SitemapBuilder.constructor: requires a valid indexer, so its capacity is positive.
- SiteTreeFunctions.TruncateSentence: `strlen` and `substr` count bytes; the model counts characters. For text outside ASCII the length limit and the cut position differ, and PHP may split a multi-byte character. The same holds for `GoogleSitemap.PrepareAttribute` and its 70- and 160-character limits.
- SiteTreeCore.RulesOf: the `sitetree_did_generate_rewrite_rules` filter is taken as the identity; the routing lemmas rely on the rules as generated.
- Builders.SitemapBuilder.BuildURLElement: the deprecated `$changefreq` and `$priority` arguments are not modelled. A date or image list given in their place is not swapped for the extra arguments.
- SiteTreeCore.FlushCachedData: the `wpsc_delete_url_cache` calls that clear WP Super Cache's copies of the sitemap files are not modelled.
- Not modelled: the admin UI, that is the page, dashboard, field and leaves views, the admin, page and meta-box controllers, form and nonce handling, and `resources/sitetree.js`.
- Not modelled: the XSL stylesheet builder, the upgrade routines and `Core::registerLeaf`, the settings data files, the hyper-list controller, the template tags, the plugin bootstrap and the uninstaller.
- Concurrency is not modelled. Every operation runs alone in one request, and persisted rows are last-writer-wins.

## Findings

| source | as written | input that shows it | evidently intended | confidence | as-written member | corrected member |
|---|---|---|---|---|---|---|
| data-model/data-model-classes.php:632-639 | with a `min_value` the filter returns at once, so a `max_value` is never checked | the value 1000 for a field with `min_value` 20 and `max_value` 512, such as the avatar size | a value is accepted only within every bound given | not executed | OptionFilters.PositiveNumberIgnoresMax | OptionFilters.PositiveNumberSound |
| data-model/data-model-classes.php:696-700 | a piece is compared with `0` before `(int)` truncates it, so `0.5` is stored as the ID 0 | the list `0.5,3` is stored as `0, 3`, and saving that again gives `3` | only IDs above zero are stored, and the filter is idempotent | not executed | OptionFilters.ListOfIdsAsWrittenKeepsZero | OptionFilters.ListOfIdsIdempotent |
| includes/core.class.php:247 | the ID group `[_a-z]+` refuses the dashes and digits WordPress allows in post type and taxonomy names | the file URLs `/book-review-sitemap.xml` and `/type2-sitemap.xml` of listed content types are routed by no rule | every file the index lists is routed back to its ID and number | not executed | SiteTreeCore.KeyIdsNotRouted | SiteTreeCore.CorrectedSitemapFileRoundTrip |
| includes/core-delegate.class.php:158-162 | without permalinks the index URL carries no `id`, and a request without an ID is redirected to the index URL | with plain links, a request for `?sitetree=sitemap` is redirected to the same URL | the index URL names `id=index` and is served | not executed | Delegate.PlainIndexRedirectsToItself | Delegate.CorrectedPlainIndexServed |
