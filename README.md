# webjob: a Dafny model of the page-generation pipeline's core

The webjob repository runs a two-stage queue pipeline that turns a preview
request for a personalised storybook into generated page images.

- **Stage A** (`src/handle_rate.py`) takes a preview ID from the intake queue.
  - It drops IDs it has already seen, using a bounded registry.
  - It picks two image-generation deployments with a first-fit allocator over a sliding 60-second usage table.
  - It records the picks in that table, publishes the enriched job to the second queue, and then stamps `request_time` on the preview record.
  - The ID is registered before the picks are made. So when processing raises and the message is abandoned, its redelivery is dropped as a duplicate and completed, and the job is not retried (`HandleRate.DeliverTwice`).
- **Stage B** (`src/async_webjob.py`) takes the enriched job from the second queue.
  - It registers the ID and marks the record started.
  - It reads the preview and book records, describes the reference photos, and assembles one generation job per preview page.
  - It writes the page's description list to the record, runs the jobs, marks the record completed and releases the ID.
- **Page generation** (`src/single_character.py`) builds the prompt around the page's scene description.
  - It calls the image-edit service, with a retry policy in one variant and a single shot in the other.
  - It names the uploaded page by user, preview, book and page.
- **Caption composition** (`src/stitch_image_outside.py`) first swaps gendered words in the caption.
  - It parses the caption's HTML into styled segments and wraps each segment greedily to the image width.
  - It paints the lines on a white band above the page image.

The model is split into six Dafny modules:

- `Py` (`python.dfy`) gives the Python semantics the core relies on: `str.replace`, `split`, `strip`, `in`, `list.remove`, indexing, `int`/`str` conversion, and exceptions as a `Result`.
- `DocStore` (`docstore.dfy`) is the document database, a map from ID to record with a version token. Each write is a compare-and-swap on the token that was read.
- `HandleRate`, `AsyncWebjob`, `Stitch` and `SingleCharacter` each model one source file.

State the source mutates is modelled as classes that carry `modifies` clauses:

- the usage table, the two preview-ID registries and the queue sender;
- the record container;
- the HTML parser.

Loops are written as methods, each proved equal to a specification function. The properties asked of the source are lemmas about those functions.

Clocks, environment reads, blob downloads, the vision model, the image-edit service and PIL text metrics are parameters of the model. HTML tokenisation is a parameter too: either a function such as `measure(text, font)` or `tokenize(html)`, or a sequence of scripted replies.

Stage B behaviours modelled as written:

- Both `deployment_1` and `deployment_2` of the record receive deployment_1's name (`src/async_webjob.py:298-299`).
- The stage-B job dict has no `"deployment"` key, so `single_character_azure` raises `KeyError` for every single-subject page (`src/async_webjob.py:365-375`).
- A job's `text` is a one-element list, which `stitch` cannot take.

## Model

| member | source | states |
|---|---|---|
| HandleRate.RateLimits.constructor | src/handle_rate.py:25-59 | the usage table starts as the declared regions and deployment names with every list empty |
| HandleRate.FirstFilledZone | src/handle_rate.py:264-276 | the index of the first region of the table that lists a deployment; every region before it is empty |
| HandleRate.UnlistedHasNoUsage | src/handle_rate.py:245 | an endpoint whose region or name the table does not list reads as an empty usage list |
| HandleRate.SlotsUnlisted | src/handle_rate.py:245 | within one region, a name no slot carries reads as an empty list |
| HandleRate.PruneKeepsRecent | src/handle_rate.py:268-274 | pruning keeps exactly the marks younger than 60 s, and as many as the recent count |
| HandleRate.CountRecentAntitone | src/handle_rate.py:248-251 | on the same marks a later clock never counts more recent marks |
| HandleRate.CountRecentSameWindow | src/handle_rate.py:248-251 | two clocks that agree on which marks are younger than 60 s give the same count |
| HandleRate.PickInFirstFree | src/handle_rate.py:241-254 | within one region the scan returns nothing iff every endpoint has at least 3 recent marks, otherwise the first endpoint with fewer |
| HandleRate.PickIsFirstFree | src/handle_rate.py:235-256 | the allocator returns `{}` iff every endpoint of the topology is saturated, and otherwise the first free endpoint scanning regions then endpoints in declared order |
| HandleRate.UnlistedIsSelectable | src/handle_rate.py:245-254 | an endpoint missing from the table is free, so the allocator always returns some endpoint |
| HandleRate.PickInCoincide | src/handle_rate.py:240-256 | within one region, two clock readings on the same table give the same pick unless a mark ages out between them |
| HandleRate.PicksCoincide | src/handle_rate.py:319-321 | both picks, made against the same table, are equal unless a mark ages out between the two clock readings |
| HandleRate.PickStaysAvailable | src/handle_rate.py:248-256 | if some endpoint is free at one reading, some endpoint is free at any later reading of the same table |
| HandleRate.RateLimits.GetAvailableDeployment | src/handle_rate.py:235-256 | the nested early-return scan returns exactly the first-fit choice |
| HandleRate.UpdatedWindow | src/handle_rate.py:259-280 | the update keeps the table's regions and names, every list keeps only marks younger than 60 s, and each list gains one mark per selection naming it |
| HandleRate.UpdateKeepsShape | src/handle_rate.py:259-280 | whether the update completes or raises at the first slot, the table keeps its regions and deployment names in order |
| HandleRate.RateLimits.UpdateZone | src/handle_rate.py:263-280 | the inner loop over one region prunes and marks each of its lists; on an empty selection it leaves the first list pruned and raises `KeyError` |
| HandleRate.RateLimits.UpdateTimestamps | src/handle_rate.py:259-280 | the nested loops prune and append in place; an empty selection raises `KeyError` at the first slot, after that slot was pruned |
| HandleRate.AdmitBounded | src/handle_rate.py:309-315 | from at most 50 IDs, the registry stays within 50, holds the new ID, and keeps a suffix of the grown list |
| HandleRate.BurstAdmittedOnce | src/handle_rate.py:309-312 | a burst of duplicate deliveries of one ID is admitted once, or never when the ID is already registered |
| HandleRate.PreviewIds.constructor | src/handle_rate.py:20 | the registry starts empty |
| HandleRate.PreviewIds.Admit | src/handle_rate.py:309-315 | admits iff the ID is new; the list becomes the ID appended and, past 50 entries, its first 30 dropped |
| HandleRate.Sender.Send | src/handle_rate.py:329-343 | a successful send appends the message to the queue, and a failed one raises and leaves the queue unchanged |
| HandleRate.ProcessMessage | src/handle_rate.py:304-345 | a missing `data` raises and a duplicate returns, both changing nothing; otherwise the ID is registered and both picks are made on the same old table; an empty pick raises `KeyError` with nothing published; the job is published before `request_time` is written |
| HandleRate.Settle | src/handle_rate.py:372-378 | a message is abandoned iff processing raised, and completed otherwise |
| HandleRate.RegisteredHoldsId | src/handle_rate.py:309-315 | at any list length, the registry after an admission holds the admitted ID |
| HandleRate.DeliverTwice | src/handle_rate.py:304-378 | the message is redelivered iff its first processing raised; a new ID whose processing fails stays registered, so the redelivery is dropped and completed, no record is written, and the job is never published after an empty pick or a failed send (published exactly once when the record is missing) |
| DocStore.Query | src/async_webjob.py:198-207 | the query's `[0]` gives the record with that ID, or `IndexError` when there is none |
| DocStore.ReplaceItemIsCompareAndSwap | src/async_webjob.py:224-229 | a replace with a stale token fails and changes nothing; with the current token it replaces exactly that record |
| DocStore.SecondWriterWithSameTokenFails | src/async_webjob.py:246-251 | two writers that read the same version cannot both write: the second fails instead of overwriting |
| DocStore.Container.Replace | src/async_webjob.py:224-229 | the container's replace is the compare-and-swap, and it issues a fresh token |
| DocStore.Container.Update | src/async_webjob.py:210-231 | read-modify-write: the record gets exactly the changed fields and a new token, and a missing ID raises `IndexError` |
| AsyncWebjob.RosterRoundTrip | src/async_webjob.py:313 | a stored `characters` list decodes back to the roster it encodes |
| AsyncWebjob.PreviewRoundTrip | src/async_webjob.py:310-314 | a record that holds a preview's fields reads back as that preview, whatever else it holds |
| AsyncWebjob.ReplaceText | src/async_webjob.py:43-50 | one output text per input text |
| AsyncWebjob.ReplaceTextEmptyRoster | src/async_webjob.py:43-50 | an empty roster leaves every text unchanged |
| AsyncWebjob.SubstituteConcat | src/async_webjob.py:46 | the fold applies substitutions strictly in roster order: folding over two rosters is folding over one and then the other |
| AsyncWebjob.SubstituteAbsent | src/async_webjob.py:46 | a text containing none of the roster's non-empty keys comes through unchanged |
| AsyncWebjob.ImageNameMime | src/async_webjob.py:450-454 | a downloaded image is named `.png`, and so sent as `image/png` by the MIME rule of line 97, iff its path ends in "png", and is `image/jpeg` otherwise |
| AsyncWebjob.PhotoPathOfUrl | src/async_webjob.py:420-421 | cutting the fixed-length prefix off a URL that carries it gives the blob path |
| AsyncWebjob.KeyMapLastWins | src/async_webjob.py:429-435 | the dict comprehension has exactly the given keys, and each key maps to the value at its last occurrence |
| AsyncWebjob.UserImageDescZip | src/async_webjob.py:418-437 | both maps have the roster's keys, and the i-th character, when not overridden by a later duplicate, owns the image from its own URL and that image's description |
| AsyncWebjob.LookupAll | src/async_webjob.py:341-345 | the list comprehension succeeds iff every key is present, and then holds the values in key order |
| AsyncWebjob.PageIndexing | src/async_webjob.py:333 | page `p` reads `pages[p-1]` with Python indexing: outside the list the loop raises `IndexError`, and a missing variant raises `KeyError` |
| AsyncWebjob.PageJobImages | src/async_webjob.py:333-394 | a page job's images are the template then the reference image of each page key in key order, and the single-subject path is chosen iff there are two images |
| AsyncWebjob.PageJobDescription | src/async_webjob.py:349-375 | the description list is the vision description, or None, followed by `"* key: " + description` for each page key in image order; the job carries the page number, the variant and the substituted text |
| AsyncWebjob.AssembleAll | src/async_webjob.py:331-401 | for any per-page pass, the loop yields one job per preview page in order up to the first exception, which is the failing page's |
| AsyncWebjob.WithUserDescription | src/async_webjob.py:256-273 | `preview_data_cosmos` sets only `user_description` |
| AsyncWebjob.LastDescriptionWins | src/async_webjob.py:355 | of the per-page writes, the last page's description list is the one that remains |
| AsyncWebjob.WithStart | src/async_webjob.py:210-231 | `modify_start_time` sets exactly `start_time`, `status = "in progress"`, `deployment_1` and `deployment_2`, and keeps every other field |
| AsyncWebjob.WithEnd | src/async_webjob.py:234-253 | `modify_end_time` sets only `end_time` and `status = "completed"` |
| AsyncWebjob.KeepPage | src/async_webjob.py:349-355 | a page that goes through writes its description list to the record and is kept; other records are unchanged |
| AsyncWebjob.PageLoop | src/async_webjob.py:331-401 | for the per-page pass it is given, the loop's jobs and exception are the page-loop function's, and the record differs only in the last kept page's description list |
| AsyncWebjob.BuildJobs | src/async_webjob.py:304-401 | reading the preview and book, describing the photos and running the page loop give exactly the jobs or exception of the job-list function on the old record; the record changes only in `user_description` |
| AsyncWebjob.Gather | src/async_webjob.py:403 | gathering gives one result per job, or the first exception in job order |
| AsyncWebjob.SinglePageFailsGather | src/async_webjob.py:363-378 | these jobs carry no `"deployment"`, so a single-subject page raises `KeyError` and the whole gather raises |
| AsyncWebjob.Registry.constructor | src/async_webjob.py:28 | the registry starts empty |
| AsyncWebjob.Registry.Intermediate | src/async_webjob.py:459-467 | an ID already registered is dropped; otherwise it is appended and processing is spawned; a missing `data` raises |
| AsyncWebjob.Registry.Remove | src/async_webjob.py:413-414 | `remove` drops the first occurrence of the ID, and raises `ValueError` when it is absent |
| AsyncWebjob.Deliver | src/async_webjob.py:459-501 | the message is completed iff `intermediate` returns, whatever later processing does; processing is spawned iff the ID was new, and the registry gains exactly that ID, otherwise it is unchanged |
| AsyncWebjob.StartJob | src/async_webjob.py:282-300 | the opening either raises `KeyError`, `AttributeError` or `IndexError` with the record unchanged, or marks the record started with the deployment name in both fields |
| AsyncWebjob.CompleteJob | src/async_webjob.py:410-414 | the record is marked completed, then the ID is released, or `remove` raises when the ID is not registered |
| AsyncWebjob.RunPageJobs | src/async_webjob.py:304-414 | an exception while building the jobs or in the gather fails the run, an empty gather returns early, and otherwise the run completes; only the job's record changes, and only in `user_description`, plus `end_time` and `status` when completed; the ID is released only when the job finishes after at least one page task |
| AsyncWebjob.ProcessJob | src/async_webjob.py:282-415 | the record ends with the start time, both deployment fields from deployment_1, and status "completed" iff the job completed, and keeps every field the stage does not write; the ID stays registered on the early-return and exception paths |
| AsyncWebjob.BothDeploymentFieldsFromFirst | src/async_webjob.py:298-299 | a job from stage A records deployment_1's name in both deployment fields |
| Stitch.ReplaceAllAbsent | src/stitch_image_outside.py:56-70 | a chain of replacements whose non-empty patterns are all absent leaves the text unchanged |
| Stitch.GenderSwapIdentity | src/stitch_image_outside.py:56-70 | a tag other than "boy" or "girl", or a text holding none of that tag's patterns, leaves the text unchanged |
| Stitch.BoySwapNotIdempotent | src/stitch_image_outside.py:56-62 | the ordered "boy" chain turns "herhe" into "hishe", and a second pass gives "hihe" |
| Stitch.HtmlTextParser.constructor | src/stitch_image_outside.py:8-12 | the parser starts with no segments and no open tags |
| Stitch.HtmlTextParser.HandleStartTag | src/stitch_image_outside.py:14-16 | a start tag pushes its name and leaves the segments alone |
| Stitch.HtmlTextParser.HandleEndTag | src/stitch_image_outside.py:18-21 | an end tag removes the first occurrence of its name when it is open, and is ignored otherwise |
| Stitch.HtmlTextParser.HandleData | src/stitch_image_outside.py:23-25 | data appends its stripped text with a copy of the open tags |
| Stitch.HtmlTextParser.FeedEvents | src/stitch_image_outside.py:92-94 | feeding callbacks one at a time leaves the parser in the state the event fold gives |
| Stitch.FeedAppend | src/stitch_image_outside.py:14-25 | feeding callbacks in two parts is the same as feeding them at once |
| Stitch.FeedKeepsSegments | src/stitch_image_outside.py:23-25 | callbacks only ever append segments |
| Stitch.SegmentsAreSnapshots | src/stitch_image_outside.py:25 | later callbacks never alter earlier segments: the segments so far are a prefix of the later ones |
| Py.RemoveFirstAt | src/stitch_image_outside.py:20-21 | `list.remove` takes out the first occurrence of the element and nothing else |
| Stitch.EndTagEffect | src/stitch_image_outside.py:18-21 | an open end tag shortens the style stack by one and removes one occurrence from its multiset; a tag that is not open changes nothing |
| Stitch.FontKey | src/stitch_image_outside.py:106-113 | the font key is one of the four declared fonts |
| Stitch.FontKeyMeaning | src/stitch_image_outside.py:106-113 | the key is bold iff `strong` is open and italic iff `em` is open, whatever else is open |
| Stitch.NestedTagsExample | src/stitch_image_outside.py:14-25 | `<strong>A<em>B</em>C</strong>` gives the segments A, B, C with fonts bold, bold-italic and bold, and closes every tag |
| Stitch.GroupsKeepWords | src/stitch_image_outside.py:35-49 | greedy grouping keeps every word in order, makes no empty line, and makes at most one line per word |
| Stitch.ShapeAfterBreak | src/stitch_image_outside.py:42-46 | a word that does not fit closes the current line, when it is not empty, and starts the next |
| Stitch.GroupsOfWords | src/stitch_image_outside.py:31-49 | every word of every line is a whole word of the text |
| Stitch.GroupsFit | src/stitch_image_outside.py:36-41 | every line, measured as it was extended word by word with its trailing space, fits the width |
| Stitch.GroupsStartWith | src/stitch_image_outside.py:36-41 | the line under construction is a prefix of the first line produced |
| Stitch.GroupsGreedy | src/stitch_image_outside.py:36-46 | grouping is greedy: each line's first word, with a space, did not fit at the end of the line before it |
| Stitch.SpacedConcat | src/stitch_image_outside.py:36 | the accumulated `word + " "` text of two word lists is the concatenation of theirs |
| Stitch.WideWordAlone | src/stitch_image_outside.py:42-46 | when widths grow with the text, a word too wide on its own still becomes a line of its own |
| Stitch.WrapLinesGroups | src/stitch_image_outside.py:28-51 | each returned line is the single-space join of one group of words, splits back to that group, and has an empty style list |
| Stitch.WrapLinesKeepWords | src/stitch_image_outside.py:28-51 | the lines' words concatenate to `text.split()`; no line is empty; there are at most as many lines as words, and none iff the text has no words; every style list is empty |
| Stitch.WrapLinesGreedy | src/stitch_image_outside.py:36-49 | every line fits as it was extended, and each line's first word did not fit after the line before it |
| Stitch.WordFits | src/stitch_image_outside.py:36-41 | a word that fits joins the current line, whose text gains the word and a space |
| Stitch.WordBreaks | src/stitch_image_outside.py:42-46 | a word that does not fit finishes the current line, when it is not empty, and starts the next |
| Stitch.WrapText | src/stitch_image_outside.py:28-51 | the loop over `text.split()` returns exactly the greedy wrap |
| Stitch.WidestLine | src/stitch_image_outside.py:101-119 | `text_width` is non-negative, at least every line's width, and either 0 or attained by some line |
| Stitch.AdvanceStep | src/stitch_image_outside.py:120 | each line adds its height plus 5 to the running height |
| Stitch.AdvanceMonotone | src/stitch_image_outside.py:120 | with non-negative line heights the running height never decreases |
| Stitch.AdvanceNonNegative | src/stitch_image_outside.py:120 | with non-negative line heights the summed height is non-negative |
| Stitch.PlacementsStep | src/stitch_image_outside.py:141-146 | lines are drawn at x = 10, the first at y = 10, each next one `line_height + 5` lower |
| Stitch.PlacementsInside | src/stitch_image_outside.py:122-146 | with non-negative heights every drawn line lies between y = 10 and 10 + `text_height` |
| Stitch.CanvasFrame | src/stitch_image_outside.py:122-149 | canvas height is `text_height + 20 + H`; the image is pasted at `text_height + 20`; the rectangle is `(0, 0, 20 + widest, 20 + text_height)`; the drawn lines are the placements |
| Stitch.CanvasLinesInside | src/stitch_image_outside.py:122-146 | with non-negative line heights every drawn line lies inside the rectangle with 10 to spare on the top, bottom and right |
| Stitch.EmptySegmentsSkipped | src/stitch_image_outside.py:103-105 | segments with empty text contribute no lines |
| Stitch.SegmentLinesMeaning | src/stitch_image_outside.py:103-121 | a non-empty segment contributes exactly its wrapped lines, in the font its open tags choose |
| Stitch.AllLinesStep | src/stitch_image_outside.py:103-121 | the lines of one more segment are the earlier lines followed by that segment's |
| Stitch.AppendLine | src/stitch_image_outside.py:118-119 | one more line adds its height plus 5 to the running height, and the widest line becomes the larger of the two |
| Stitch.StyleLines | src/stitch_image_outside.py:115-121 | the loop over wrapped lines appends each in the segment's font and keeps the running height and width equal to their specifications |
| Stitch.MeasureSegment | src/stitch_image_outside.py:113-121 | wrapping a non-empty segment and measuring its lines appends exactly the segment's lines, with the running height and width kept |
| Stitch.MeasureLines | src/stitch_image_outside.py:100-121 | the measuring loop yields all styled lines, the summed `line_height + 5` and the widest line |
| Stitch.DrawLines | src/stitch_image_outside.py:141-146 | the drawing loop's `y` cursor places each line where the offset rule says |
| Stitch.Layout | src/stitch_image_outside.py:122-149 | sizing and drawing give the canvas the layout function describes |
| Stitch.Compose | src/stitch_image_outside.py:97-149 | measuring and drawing the parsed segments give exactly the composed canvas |
| Stitch.StitchCaption | src/stitch_image_outside.py:54-149 | `stitch` is the gender swap, then the parser fed with the swapped text's callbacks, then the composed layout |
| SingleCharacter.GetPrompt | src/single_character.py:166-231 | the prompt is the fixed header, the description verbatim, then the fixed tail |
| SingleCharacter.PromptEmbedsDescription | src/single_character.py:168-177 | the description can be read back unchanged from between the header and the tail |
| SingleCharacter.PromptInjective | src/single_character.py:168-177 | different descriptions give different prompts |
| SingleCharacter.NoSlashInNumber | src/single_character.py:156 | the page-number part of the key holds no '/' |
| SingleCharacter.BlobNameParts | src/single_character.py:156 | split on '/', the key gives the user, preview and book IDs and `page_num.png`, when the IDs hold no '/' |
| SingleCharacter.BlobNameRoundTrip | src/single_character.py:154-157 | the upload key names its user, preview, book and page without loss |
| SingleCharacter.RetryEdits | src/single_character.py:31-66 | the `while True` loop ends exactly where the reply-driven retry function says |
| SingleCharacter.SuccessEndsLoop | src/single_character.py:35-43 | a successful call ends the loop with a response to the unchanged prompt |
| SingleCharacter.BillingStops | src/single_character.py:45-51 | a `billing_hard_limit` refusal ends the loop with no response, even when it also mentions moderation |
| SingleCharacter.OtherBadRequestRetries | src/single_character.py:45-66 | any other bad request is retried with the prompt unchanged |
| SingleCharacter.ModerationRaisesTypeError | src/single_character.py:53-55 | as written, the first moderation refusal raises `TypeError` from `prompt + "\n" + images` |
| SingleCharacter.ModerationPrependsContext | src/single_character.py:53-66 | without that concatenation, n moderation refusals and then a success give the response to the prompt behind n context blocks |
| SingleCharacter.ContextShift | src/single_character.py:66 | prepending one more block to n blocks gives n + 1 blocks |
| SingleCharacter.PromptOnlyGainsContext | src/single_character.py:31-66 | whatever the replies, the loop only ever prepends whole context blocks to the original prompt |
| SingleCharacter.SingleCharacterRun | src/single_character.py:15-79 | no description raises `IndexError`; an unbound `set_quality` raises `NameError`; otherwise a response gives the decoded image to upload under the page's key in "final-books", billing gives `exit()`, and an exception propagates |
| SingleCharacter.SingleCharacterAzure | src/single_character.py:82-146 | a missing deployment raises `KeyError` and no description `IndexError`; any failure of the one edit call gives None with no retry; a successful call goes on to `stitch` with a list and raises |

## Left out

- Azure Service Bus receivers and senders, `AutoLockRenewer` and lock renewal, and blob upload and download are network I/O. The send outcome is a boolean parameter, and a download is the container and path it was read from.
- Cosmos `query_items` and `replace_item` are modelled only as the `DocStore` map with version tokens. Query syntax, partitions and the `_etag` strings are left out.
- The OpenAI, Azure OpenAI and LangChain calls are foreign services, represented by their replies: `describe`, `edit`, `multi` and a sequence of `EditReply`. The prompt prose is represented by stand-in constants.
- PIL is foreign and pixel based: font loading, `textbbox`, drawing, paste and PNG encoding. A `measure(text, font)` parameter that returns integer width and height stands in for it. Fonts are represented by their key.
- `images_to_pdf` is PDF encoding through PIL, and it is never called.
- `html.parser` tokenisation is a `tokenize` parameter that yields the start, end and data callbacks. `parser.close()` flushing buffered text is not modelled.
- `datetime.now()`, the ISO timestamp strings and float `total_seconds` are whole-second integers. Each clock reading, and each formatted time written to a record, is a separate parameter.
- asyncio `create_task`, `gather`, the worker loops and their concurrency are modelled sequentially, and interleavings between workers are not modelled. `AsyncWebjob.Deliver` only reports whether `intermediate` spawned the processing task; it does not run it. `AsyncWebjob.ProcessJob` models that task's run as a separate member, and no member chains the two.
- `get_deployments` reads the environment through an `env` parameter. It is not connected to `ProcessMessage`, which takes the topology as a parameter.
- `Py.Lower`: folds the ASCII letters `A`-`Z` only. Python's `str.lower` also folds non-ASCII letters (U+212A KELVIN SIGN becomes `k`), so an error text such as `moderation_bloc\u212Aed` matches the moderation test of src/single_character.py:53 in the source but not in the model.
- `log_function` and the commented-out `log_moderation` are log I/O.
- `json.loads` on a malformed body is not modelled: messages arrive decoded (`Intake`, `Job`).
- `AsyncWebjob.BuildJobs` (through `AsyncWebjob.PreviewOf` and `AsyncWebjob.JobsFor`): decodes every `characters` entry's `key`, `label` and `photoUrl` right after the preview is read, and raises `KeyError` there when one is missing. The source reads `photoUrl` only when the description task is awaited at the first page (src/async_webjob.py:338, 421), and `key`/`label` only in `replace_text` after `user_description` was written (src/async_webjob.py:355-356). So the model differs in three cases. (a) A missing `label` with a page that goes through: the source writes `user_description` before raising, but the model raises with the record unchanged. (b) A missing `photoUrl` with no preview pages: the source returns `None`, but the model fails with `KeyError`. (c) A malformed roster together with a missing book: the source raises the book's not-found error, but the model raises `KeyError`.
- Records are decoded into typed values (`PreviewOf`, `Book`). The `str()` rendering of the description list stored in `user_description` is kept as the list (`DocStore.ListText`).
- The unused `text` and `stit` lists, `count`, and the `start`/`end` timing of stage B are not modelled.
- The usage table is an ordered sequence of regions and slots, standing for the nested dict in its insertion order.
- `RetryLoop` and `SingleCharacterRun` consume a finite sequence of replies. A run that is still retrying when the replies run out ends in `OutOfReplies` or `Waiting`, standing for the unbounded loop.
- Base64 decoding and encoding of the image, and `io.BytesIO`, are not modelled; the image is carried as its base64 text.
- The generator for more than one subject (`multi_character_azure`) is not part of this model. Its result is the `multi` parameter.
- `SingleCharacter.SingleCharacterAzure`: does not go through the layout on a successful reply, because `payload["text"]` is a list, on which `stitch` raises before any drawing.

## Findings

| source | as written | input that shows it | evidently intended | confidence | as-written member | corrected member |
|---|---|---|---|---|---|---|
| src/single_character.py:55 | the moderation branch evaluates `prompt + "\n" + images` with `images` the list of image files | any `BadRequestError` whose text contains "moderation_blocked" but not "billing_hard_limit" | log the refused prompt, then prepend the storybook context and retry | not executed | SingleCharacter.ModerationRaisesTypeError | SingleCharacter.ModerationPrependsContext |
