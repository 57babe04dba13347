# AI Career Advisor — a verified model of its client logic

This project models the logic of the AI Career Advisor web app in Dafny. The app is a single-page React client with three form pages, plus a small rule in its Python backend. The model covers:

- **The line-to-block renderer.** Backend text is split on `'\n'`. Each line becomes a heading, a list item or a paragraph. The profile page's heading marker is `"###"` and the resume page's is `"##"`. The chat page renders every line as a paragraph. (`text.dfy`, `renderer.dfy`)
- **The career recommendation page.** It holds sixteen form fields and an optional PDF, checked for size first and then for type. The multipart payload is built by a `for…in` loop. The page picks one error message when a request fails. (`forms.dfy`, `career_recommendation.dfy`)
- **The resume vetting page.** Pasted text and a PDF exclude each other. A submission with neither fails at once. The payload always ends with the analysis types. The status of a response decides what is shown. The results view uses score notes at 80 and 60, sections that appear only when present, and `"##"` feedback headings. (`resume_vetter.dfy`)
- **The chat page.** The transcript only grows and opens with one greeting. A send is ignored while a request is loading or when the input is blank. Each send gets exactly one bot answer, from a reply or from an error. Enter without Shift sends. (`interactive_chat.dfy`)
- **The backend recommendation rule.** A priority chain over `interests` and `skills` picks one of four titles. (`career_logic.dfy`)

Each page is a `class` whose fields are the page's React state. Each handler is a method with a `modifies this` frame. A submit is split into two steps. `BeginSubmit` runs the synchronous part and returns the payload. `Complete(response)` or `Fail(error)` then runs once the request settles. Server bodies and failed requests are datatype inputs. `HttpError` records what the `catch` blocks read: `err.response`, `err.request` and `err.message`. JavaScript's `a || b` on an optional string is `Forms.Or`, which treats an absent value and `""` alike as falsy.

Two things the code does not do:
- **No separate timeout error.** An axios timeout has a request but no response. It therefore gets the "server isn't responding" text (`InteractiveChat.TimedOutFirstQuestion`).
- **No required-field check.** The profile form's starred fields are not checked, so `ProfileForm.BeginSubmit` never refuses.

## Model

| member | source | states |
|---|---|---|
| Text.RemoveFirst | src/pages/CareerRecommendation.js:107 | `replace(marker, '')` leaves the string alone when the marker does not occur; otherwise the result is one marker shorter, and putting the marker back at its first occurrence gives the original string |
| Text.RemoveFirstOfPrefix | src/pages/CareerRecommendation.js:106-109 | when the line starts with the marker, the first occurrence is that prefix, so exactly the prefix goes |
| Text.TrimSpec | src/pages/CareerRecommendation.js:107-109 | `trim()` returns a slice of its input; everything cut from either end is whitespace; the result neither starts nor ends with whitespace |
| Text.TrimOfTrimmed | src/pages/CareerRecommendation.js:107-109 | a string with no whitespace at either end is its own trim |
| Text.TrimIdempotent | src/pages/CareerRecommendation.js:107-109 | trimming twice is trimming once |
| Text.TrimEmptyIff | src/pages/InteractiveChat.js:20 | `input.trim()` is empty exactly when the input is whitespace only |
| Text.SplitLinesCount | src/pages/CareerRecommendation.js:105 | `split('\n')` gives one piece more than there are newlines |
| Text.SplitLinesNoNewline | src/pages/CareerRecommendation.js:105 | no piece contains a newline |
| Text.JoinSplitLines | src/pages/CareerRecommendation.js:105 | joining the pieces with newlines gives back the text |
| Text.SplitJoinLines | src/pages/CareerRecommendation.js:105 | splitting newline-free lines joined by newlines gives back the lines |
| Text.SplitConcat | src/pages/CareerRecommendation.js:105 | the pieces of `a\nb` are the pieces of `a` followed by those of `b`, so source order is kept |
| Text.NatToStringValue | src/pages/InteractiveChat.js:55 | the decimal text of a status code reads back as that code, and starts with '0' only for the code 0, so it has no leading zero |
| Renderer.Classify | src/pages/CareerRecommendation.js:106-111 | heading exactly when the line starts with the marker; list item exactly when it starts with "-" and not the marker; otherwise a paragraph holding the line unchanged |
| Renderer.ClassifyHeading | src/pages/CareerRecommendation.js:106-107 | a heading's text is the line after its leading marker, trimmed |
| Renderer.ClassifyListItem | src/pages/CareerRecommendation.js:108-109 | a list item's text is the line after its leading dash, trimmed |
| Renderer.ClassifiedTextTrimmed | src/pages/CareerRecommendation.js:107-109 | heading and list-item text has no whitespace at either end |
| Renderer.HeadingBeforeList | src/pages/CareerRecommendation.js:106-109 | for an arbitrary marker, a line starting with both the marker and "-" is a heading, because the heading test runs first |
| Renderer.MarkersExclusive | src/pages/CareerRecommendation.js:106-111 | no line starts with both "-" and "###", or with both "-" and "##", so on both pages the heading and list tests exclude each other and their order cannot be observed |
| Renderer.ProfileDoubleHashIsParagraph | src/pages/CareerRecommendation.js:106-111 | on the profile page a line starting with "##" but not "###" is a paragraph holding the line unchanged |
| Renderer.ResumeTripleHashKeepsHash | src/pages/resumevetter.js:144-145 | on the resume page "###X" becomes a heading whose text is `trim("#X")`, which starts with '#' |
| Renderer.Render | src/pages/CareerRecommendation.js:105-113 | one block per line, the i-th block being the i-th line classified |
| Renderer.RenderLength | src/pages/CareerRecommendation.js:105-113 | the number of blocks is the number of newlines plus one |
| Renderer.RenderConcat | src/pages/resumevetter.js:143-151 | the blocks of `a\nb` are the blocks of `a` followed by those of `b`, so order is kept |
| Renderer.RenderParagraphNoNewline | src/pages/CareerRecommendation.js:110-111 | a paragraph block's text is a single line |
| Renderer.RenderParagraphsFaithful | src/pages/InteractiveChat.js:86-88 | the chat rendering is all paragraphs, one per line, and their texts joined by newlines are the message |
| Forms.CheckPdf | src/pages/CareerRecommendation.js:39-47 | accept exactly when size ≤ 5·1024·1024 and the type is application/pdf; the size error exactly when oversize, whatever the type; the type error only for a file that is not oversize |
| Forms.CheckPdfBoundary | src/pages/resumevetter.js:28 | 5,242,880 bytes pass; 5,242,881 fail with the size message |
| CareerRecommendation.InitialFields | src/pages/CareerRecommendation.js:6-23 | the form starts with the sixteen keys in declaration order, all empty |
| CareerRecommendation.SetFieldLookup | src/pages/CareerRecommendation.js:31-33 | after `{...formData, [name]: value}` the key reads the new value and every other key reads what it did |
| CareerRecommendation.SetFieldNames | src/pages/CareerRecommendation.js:31-33 | an existing key keeps its position; a new key is appended at the end |
| CareerRecommendation.FilledPartsMembers | src/pages/CareerRecommendation.js:67-72 | a text part is sent for a field exactly when the field's value is non-empty |
| CareerRecommendation.FilledPartsConcat | src/pages/CareerRecommendation.js:67-72 | the field parts follow the order of the fields |
| CareerRecommendation.ProfilePayloadFile | src/pages/CareerRecommendation.js:62-65 | `resume_pdf` comes first exactly when a file is selected, and there is no other file part |
| CareerRecommendation.BuildProfilePayload | src/pages/CareerRecommendation.js:60-72 | the append loop builds exactly the payload: the file if any, then each non-empty field in key order |
| CareerRecommendation.ProfileErrorMessage | src/pages/CareerRecommendation.js:87-89 | the message is `detail` if truthy, else `error` if truthy, else the fixed fallback; it is never empty |
| CareerRecommendation.ProfileForm.constructor | src/pages/CareerRecommendation.js:6-28 | empty fields in declaration order, no file, no response, not loading, no error |
| CareerRecommendation.ProfileForm.Change | src/pages/CareerRecommendation.js:31-33 | the named key takes the value and the rest of the state is unchanged |
| CareerRecommendation.ProfileForm.SelectFile | src/pages/CareerRecommendation.js:35-51 | no file changes nothing; a rejected file sets the check's message and keeps `pdfFile`; an accepted file is stored and the error cleared |
| CareerRecommendation.ProfileForm.ClearFile | src/pages/CareerRecommendation.js:151-154 | the selected file is dropped and nothing else changes |
| CareerRecommendation.ProfileForm.BeginSubmit | src/pages/CareerRecommendation.js:53-72 | loading set, error and response cleared, and the payload equals the profile payload; never refused |
| CareerRecommendation.ProfileForm.Complete | src/pages/CareerRecommendation.js:84-92 | the response is stored and loading ends |
| CareerRecommendation.ProfileForm.Fail | src/pages/CareerRecommendation.js:85-92 | the chosen error message is shown and loading ends; the response stays cleared |
| CareerRecommendation.ProfileForm.Recommendations | src/pages/CareerRecommendation.js:95-113 | nothing without recommendation text; otherwise the "###" rendering, one block per line |
| ResumeVetter.ResumePayloadNames | src/pages/resumevetter.js:55-61 | the part names are `resume_pdf` if a file is selected, `resume_text` if the text is non-empty, `job_description` if the description is non-empty, in that order, then `analysis_type` |
| ResumeVetter.ResumePayloadParts | src/pages/resumevetter.js:55-61 | `resume_pdf` exactly when a file is selected; `resume_text` and `job_description` exactly when non-empty; the analysis types `["ats","skills","structure"]` always come last |
| ResumeVetter.VetErrorMessage | src/pages/resumevetter.js:78 | the message is `response.detail` if truthy, else `err.message` if non-empty, else the fallback; it is never empty |
| ResumeVetter.StatusFailureMessage | src/pages/resumevetter.js:70-78 | a status other than "success" shows the response's `detail`, else "Analysis failed" |
| ResumeVetter.ScoreNote | src/pages/resumevetter.js:94-98 | "Excellent!" exactly for a score of at least 80, "Good, but can improve" exactly for 60 to 79, "Needs significant work" exactly below 60 |
| ResumeVetter.ScoreNoteMonotone | src/pages/resumevetter.js:95-97 | a higher score never gets a worse note |
| ResumeVetter.SubScore | src/pages/resumevetter.js:246-248 | a sub-score card appears exactly for a present non-zero score, with that score's note |
| ResumeVetter.ZeroSubScoreShowsStrayZero | src/pages/resumevetter.js:246 | as written, an ATS score of 0 puts a bare 0 into the view; the intended view has none |
| ResumeVetter.AnalysisViewAsWrittenShape | src/pages/resumevetter.js:239-258 | as written, the overall card comes first and a bare "0" appears exactly when some sub-score is 0 |
| ResumeVetter.CorrectionOnlyDropsStrayZeros | src/pages/resumevetter.js:239-258 | the intended view is the written view with its bare "0"s removed and everything else kept in order |
| ResumeVetter.AnalysisViewShape | src/pages/resumevetter.js:239-258 | the overall card comes first, showing 0 when the score is absent; sub-score cards and detail sections follow; no stray text appears |
| ResumeVetter.MissingSkillsShown | src/pages/resumevetter.js:104-119 | the missing-skills list is shown exactly when it is non-empty, with its items in order |
| ResumeVetter.OverallSeventyTwo | src/pages/resumevetter.js:242 | an overall score of 72 with missing skill "SQL" gives a "Good, but can improve" card, then that one skill |
| ResumeVetter.ResumeForm.constructor | src/pages/resumevetter.js:6-12 | all inputs empty, no results, no banners, not loading |
| ResumeVetter.ResumeForm.SelectFile | src/pages/resumevetter.js:24-41 | the same check as the profile page; an accepted file also clears the pasted text; the text/file exclusion is kept |
| ResumeVetter.ResumeForm.EditText | src/pages/resumevetter.js:201-206 | typing replaces the text and drops any file, so text and file never coexist |
| ResumeVetter.ResumeForm.EditJobDescription | src/pages/resumevetter.js:216-218 | only the job description changes |
| ResumeVetter.ResumeForm.ClearFile | src/pages/resumevetter.js:189-192 | only the file is dropped |
| ResumeVetter.ResumeForm.SubmitEnabled | src/pages/resumevetter.js:226 | the button is enabled exactly when not loading and some text or a file is present |
| ResumeVetter.ResumeForm.BeginSubmit | src/pages/resumevetter.js:43-61 | results and banners are reset; with neither text nor file it fails with "Please upload a resume or paste text", sends nothing and stops loading; otherwise it returns the resume payload and stays loading |
| ResumeVetter.ResumeForm.Complete | src/pages/resumevetter.js:70-81 | "success" stores the analysis and the success banner; any other status sets the detail-or-"Analysis failed" error; loading ends |
| ResumeVetter.ResumeForm.Fail | src/pages/resumevetter.js:76-81 | the chosen error message is shown and loading ends |
| ResumeVetter.ResumeForm.ResultsAsWritten | src/pages/resumevetter.js:239-258 | the results area as the page renders it: nothing without an analysis; otherwise the overall card first, and a bare "0" exactly when some sub-score is 0 |
| ResumeVetter.ResumeForm.Results | src/pages/resumevetter.js:239-258 | the corrected results area: nothing without an analysis; otherwise at least the overall card, no bare "0", and exactly the written area with its bare "0"s removed |
| InteractiveChat.ReplyText | src/pages/InteractiveChat.js:43-45 | `message` if truthy, else `response` if truthy, else "I couldn't process that request."; never empty |
| InteractiveChat.ChatErrorMessage | src/pages/InteractiveChat.js:51-59 | with a response: `detail` or "Error: <status>"; with only a request: "The server isn't responding…"; otherwise "Sorry, something went wrong." |
| InteractiveChat.ErrorStatusReadable | src/pages/InteractiveChat.js:54-55 | "Error: " is followed by the status code's digits, which read back as the code and have no leading zero |
| InteractiveChat.SendsOnKey | src/pages/InteractiveChat.js:68-73 | only Enter sends, and Enter sends exactly when Shift is not held |
| InteractiveChat.RenderedFaithful | src/pages/InteractiveChat.js:86-88 | a message is shown as paragraphs only, whose lines rejoin to its text |
| InteractiveChat.ChatSession.constructor | src/pages/InteractiveChat.js:6-11 | the transcript is exactly the greeting; no input, not loading, no error |
| InteractiveChat.ChatSession.EditInput | src/pages/InteractiveChat.js:116 | only the input changes |
| InteractiveChat.ChatSession.Send | src/pages/InteractiveChat.js:19-26 | ignored, with nothing changed, exactly when loading or the input is blank; otherwise appends one user message with the untrimmed input, clears the input and the error, and sets loading |
| InteractiveChat.ChatSession.KeyDown | src/pages/InteractiveChat.js:68-73 | Enter without Shift behaves as Send, so a refused send changes nothing; any other key changes nothing |
| InteractiveChat.ChatSession.Complete | src/pages/InteractiveChat.js:43-47 | appends exactly one bot message with the reply text and ends loading |
| InteractiveChat.ChatSession.Fail | src/pages/InteractiveChat.js:48-64 | appends exactly one bot message with the error text, shows the same text as the error, and ends loading |
| InteractiveChat.RepliesMatchSends | src/pages/InteractiveChat.js:19-64 | in an alternating transcript the user wrote half the messages, rounded down, and the bot wrote the rest |
| InteractiveChat.IdleSessionAnswered | src/pages/InteractiveChat.js:19-64 | when no request is in flight there is exactly one more bot message than user messages |
| InteractiveChat.TimedOutFirstQuestion | src/pages/InteractiveChat.js:51-62 | "hello" followed by a timeout leaves the greeting, the user's "hello" and one not-responding bot message, with the same text as the error |
| CareerLogic.Recommend | backend/services/career_logic.py:1-14 | the result is always one of the four titles |
| CareerLogic.DeveloperFirst | backend/services/career_logic.py:7-8 | "coding" in interests or "programming" in skills gives "Software Developer", whatever else is present |
| CareerLogic.RecommendExactly | backend/services/career_logic.py:7-14 | each title exactly when its rule is the first to match |
| CareerLogic.EmptyProfileIsGeneral | backend/services/career_logic.py:3-14 | missing keys read as empty, so an empty request gives "General Analyst" |
| CareerLogic.OnlySkillsAndInterestsMatter | backend/services/career_logic.py:3-14 | two requests with the same skills and interests get the same title |
| CareerLogic.QualificationIgnored | backend/services/career_logic.py:5 | changing `qualification` never changes the title |

The class methods change state, so their contracts use `old(...)`. Each page keeps an invariant that every method proves it preserves:
- `ProfileForm.Valid`: the keys stay exactly the declared keys.
- `ResumeForm.Exclusive`: text and file are never both present.
- `ChatSession.Valid`: the transcript opens with the greeting and alternates bot and user. A request is in flight exactly when the last message is the user's.

## Findings

| source | as written | input that shows it | evidently intended | confidence | as-written member | corrected member |
|---|---|---|---|---|---|---|
| src/pages/resumevetter.js:246-248 | `{analysis.ats_score && renderScoreCard(...)}` evaluates to the number `0` for a zero sub-score, and React renders that number as the text "0" | an analysis with `ats_score: 0` (the same holds for `skill_score` and `structure_score`) | nothing is shown for a zero sub-score | high, not executed | ResumeVetter.AnalysisViewAsWritten (shown by ResumeVetter.ZeroSubScoreShowsStrayZero) | ResumeVetter.AnalysisView (proved by ResumeVetter.AnalysisViewShape, ResumeVetter.SubScore and ResumeVetter.CorrectionOnlyDropsStrayZeros) |

## Left out

- **HTTP transport.** axios endpoints, headers, multipart encoding and the 10 s and 30 s timeouts are network I/O. Server bodies and failures are inputs (`CareerResponse`, `VetResponse`, `ChatReply`, `HttpError`).
- **Timeouts and retries.** The code has no separate timeout outcome: a timeout is a request without a response. No code retries a request.
- **React timing.** State batching, stale closures and updates after unmount are not modelled. Each submit or send is a sequential begin/complete pair.
- **Chat outcome order.** `ChatSession.Complete` and `ChatSession.Fail` require `loading`, because an outcome only follows a send.
- ResumeVetter.ResumeForm.Results: gives the corrected results area, not the one the page renders. The page also shows a bare "0" for each zero sub-score (see "## Findings"). `ResumeForm.ResultsAsWritten` models the area as rendered, and `Results` is proved to be it with those "0"s removed.
- **Banner auto-clear.** The 5-second auto-clear of the resume page's banners is timer behaviour (src/pages/resumevetter.js:16-22).
- **Browser APIs.** Clipboard copy and text-file download of the cover letter, auto-scroll, and file-input resets are not modelled.
- **Presentation.** Markup, CSS classes, spinners, the file-size-in-KB label, the "Analysis based on" source line and `console.error` logging are UI only.
- **Other files.** src/pages/JobMarketTrends.js is not part of this model: its paragraph split is the chat one (`Renderer.RenderParagraphs`). The route table in src/App.js and the active-link test in src/pages/Layout.js are not part of this model either.
- **Text.Trim whitespace.** It strips a fixed ASCII set: space, tab, LF, CR, VT and FF. JavaScript's `trim` also strips no-break space, the BOM and the other Unicode space and line separators.
- **String encoding.** JavaScript strings are UTF-16 code units. The model uses Dafny characters, with no encoding or normalisation.
- **Error details.** `detail` and `error` are optional strings. A backend `detail` that is not a string, such as a list of validation errors, is not modelled.
- **Scores.** Scores are integers. Fractional and NaN scores are not modelled.
- **CareerLogic.Recommend: Python `in`.** Skills and interests are lists with membership. Python's substring `in` on a string value is not modelled.
