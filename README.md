# Justice courtroom: a Dafny model of its application logic

Justice is a single-page courtroom simulation. The user reads a criminal case, questions
an AI prosecutor and an AI defendant in two chat rooms, and submits a verdict. The
verdict is then analysed by a remote model, with a keyword heuristic as fallback. Past
verdicts are kept in the browser and summarised into a "learning context" once a case
has 100 of them.

This project models the logic of `app.js` under that interface. The DOM, `fetch`,
timers and `localStorage` are stripped away:

- `queue.dfy`: the single-flight API queue (`apiQueue`, `isApiBusy`,
  `processApiQueue`). Its ghost history shows that tasks start in push order, each
  once, and never two at a time.
- `retry.dfy`: the rate-limit retry loop of the two dialogue calls. The loop runs over
  an injected sequence of responses. A spec function gives the trace of waits,
  requests and outcome, and the loop method is proved equal to it.
- `stream.dfy`: the server-sent-event decoder, the `<`/`>` escaping, and
  `parseSimpleMarkdown`.
  - The frame payload is abstract: an injected parser yields the part texts.
  - `fullAiText` is specified as the concatenation of the per-line pieces.
  - Every redisplay is specified as a function of the whole accumulated text.
- `chat.dfy`: the two rooms and their turn histories. It covers the producers
  `renderChatHistory` and `handleChatSubmit`, the `historyContext` excerpt, and one
  run of a dialogue task from the queue's drain to its `finally` block.
- `fallback.dfy`: the keyword heuristic `generateMockAiData`. Its randomness is
  injected.
- `analysis.dfy`: `fetchRealAiAnalysis`. The remote JSON is coerced field by field, and
  every failure falls back to the heuristic.
- `verdicts.dfy`: the verdict store (`saveVerdict`, `getVerdictsByCaseId`,
  `updateLastVerdictWithSurvey`), `computeStats` with exact integer rounding, and
  `buildLearningContext`.
- `text.dfy`, `roles.dfy`, `wrappers.dfy`: string built-ins (`includes`, `split`,
  `join`, `trim`, number formatting), the two roles, and `Option`.

Injected values stand in for I/O and randomness:

- **Remote service.** The responses to successive requests are a
  `seq<Attempt>`. The streamed body is a `seq<string>` of decoded chunks. The analysis
  reply is a `Reply` holding an abstract `Json` value.
- **Missing responses.** `RunTask`, `Execute` and `FetchWithRetry` require responses
  for at least `MaxRetries + 1` requests. This is a bound on the injected sequence, not
  a demand on callers: at most that many requests are ever made (`Retry.RetryBound`).
- **Randomness.** `Math.random` becomes `Fallback.Randomness`:
  - a sequence of picks for the shuffle-and-slice;
  - a bit for `2 + Math.floor(Math.random() * 2)`;
  - an index for the generic tag.
- **Shuffle.** `Draw` removes pool elements one at a time at the picked positions. It
  can produce every ordered choice of distinct pool positions, and only those. These
  are exactly the results an arbitrary permutation followed by `slice(0, n)` can give.

Behaviour of the code worth knowing:

- **Chunk boundaries matter.** Each chunk is split on newlines by itself, so a frame
  cut across two chunks is lost (`Stream.SplitFrameIsDropped`).
- **The remote result is not normalised.** The coercion neither clamps the remote
  scores nor ensures a non-empty tag list (`Analysis.CoercionKeepsRemoteValues`). Only
  the heuristic guarantees those.
- **The rates can sum to 101.** `Math.round` rounds halves up, so the guilty and
  innocent rates can add up to 101 (`Verdicts.RatesCanSumTo101`).
- **An empty API key keeps the old analysis.** `fetchRealAiAnalysis` returns without
  writing `aiAnalysis`, so the previous value stays in place.

## Model

| member | source | states |
|---|---|---|
| Queue.ApiQueue.constructor | app.js:308-309 | The queue starts empty and idle, with an empty history. |
| Queue.ApiQueue.Enqueue | app.js:515 | `push` appends the task at the back of the pending list and of the enqueue history; nothing else changes. |
| Queue.ApiQueue.Drain | app.js:311-315 | Busy or empty: no-op. Otherwise it shifts exactly the front task, marks the queue busy with that task running, and appends it to the started history. The invariant `enqueued == started + pending` gives FIFO order, each task once; `busy <==> running` gives one task at a time. |
| Queue.ApiQueue.Finish | app.js:320-325 | The `finally` block, reached on success and on throw: busy and running are cleared, the pending list is untouched, and the queue is re-armed exactly when tasks still wait. |
| Retry.Classify | app.js:439-445 | Defines the check after the loop: a rejected `fetch` is its error; an ok status goes on to the stream; 429 is rate-limit exhaustion; any other status is a server error carrying that status. |
| Retry.RetrySpec | app.js:407-437 | Defines the specification of the request loop: the first response that is not a 429 refusal, or the fourth, stops it; the waits are the backoff times of the refusals before it; the outcome is that response classified as ok, rate-limit exhaustion, server error or rejection (app.js:439-445). |
| Retry.FetchWithRetry | app.js:407-437 | The request loop yields exactly the trace `RetrySpec` of the injected responses: outcome, waits taken and number of requests. |
| Retry.RetryBound | app.js:407-437 | 1 to 4 requests. Every request but the last was refused with 429; the last was not, unless the retries ran out. The waits are a prefix of `[5000, 10000, 15000]` with `waits[i] == backoffTimes[i]`. The outcome classifies the last response. |
| Retry.FirstNonRateLimitedStops | app.js:429-436 | The first response that is not a 429 ends the loop and decides the outcome, after one wait per earlier refusal. |
| Retry.OutcomeKinds | app.js:439-445 | The body is streamed exactly when the response that stopped the loop is ok; "API 오류" is reported exactly when it has a non-ok status other than 429; the `fetch` error propagates exactly when that request was rejected. |
| Retry.ExhaustionIff | app.js:439-442 | "Rate limit exceeded" is reported if and only if all four requests were refused; the call then waited the whole schedule. |
| Retry.UnusedResponsesIrrelevant | app.js:407-437 | Responses beyond the requests actually issued do not influence the trace. |
| Stream.LineText | app.js:464-469 | Defines what one line adds: for a line starting with `data: ` whose payload parses with parts, the part texts joined; for any other line, nothing. |
| Stream.StreamText | app.js:457-470 | Defines `fullAiText` at the end of the stream: the texts of all lines, chunk by chunk, each chunk split on newlines by itself and its lines taken in order, concatenated. |
| Stream.IgnoredLineContributesNothing | app.js:465-479 | A non-`data: ` line, or a line whose payload does not parse or lacks parts, contributes nothing wherever it stands. |
| Stream.StreamPiecesAppend | app.js:457-463 | The stream's pieces are the chunks' pieces in order; each chunk is decoded on its own. |
| Stream.SnapshotsGrow | app.js:470 | `fullAiText` only grows by appending: each earlier value is a prefix of every later one. |
| Stream.WholeFrameDecoded | app.js:462-470 | A one-line chunk holding a whole frame contributes the frame's joined part texts. |
| Stream.SplitFrameIsDropped | app.js:460-465 | A frame split as `"da"` + `"ta: …"` across two chunks contributes nothing, whatever the payload. |
| Stream.Escape | app.js:473 | Defines the escaping `replace(/</g, "&lt;").replace(/>/g, "&gt;")` as two single-character replacements, the first over the whole text before the second. |
| Stream.EscapeNoBrackets | app.js:473 | After escaping, the text holds no `<` and no `>`. |
| Stream.EscapeUnchanged | app.js:669 | Text without angle brackets is escaped to itself. |
| Stream.EscapeAppend | app.js:622 | Escaping the accumulated text equals escaping its parts and concatenating. |
| Stream.EscapeConflatesEntity | app.js:473 | `&` is not escaped, so a literal `&lt;` and a real `<` display identically. |
| Stream.EscapeTag | app.js:669-670 | A tag `<name>` is shown as `&lt;name&gt;`: both brackets become entities and the name is kept. |
| Stream.CloseFrom | app.js:647 | The lazy `(.*?)\*\*` search returns a position holding `**` at or after its start. |
| Stream.CloseFromSpec | app.js:647 | That position is the nearest `**` with no line terminator before it. Nothing is found exactly when every later `**` lies beyond a line terminator. |
| Stream.Markdown | app.js:645-648 | Defines `parseSimpleMarkdown`: a left-to-right scan that rewrites each `**` followed, on the same line, by a later `**` into `<strong>…</strong>` around the shortest text between them, and copies every other character. |
| Stream.MarkdownUnchanged | app.js:645-648 | Text without `**` is returned unchanged. |
| Stream.MarkdownEmphasis | app.js:645-648 | A `**x**` whose `x` is on one line and holds no `*` becomes `<strong>x</strong>`, and the rewriting goes on after the closing marker. |
| Stream.MarkdownRoundTrip | app.js:645-648 | On text without `<`, turning the inserted `<strong>`/`</strong>` tags back into `**` gives the input: the emphasis pass adds only its own tags and copies every other character. |
| Stream.Display | app.js:473-475 | Defines the `innerHTML` set on each frame: the role's prefix followed by `parseSimpleMarkdown` of the escaped whole accumulated text. |
| Stream.DisplayBody | app.js:473-475 | A display is the role's prefix followed by the escaped text with emphasis tags; restoring the markers of the body gives exactly the escaped text. |
| Stream.ShowsSnapshotsExtend | app.js:470-475 | Appending a piece keeps "display `i` shows the text accumulated through piece `i`". |
| Stream.DecodeLine | app.js:464-480 | One line: a frame appends its text to `fullAiText` and redisplays from the whole text; any other line changes nothing. |
| Stream.DecodeChunk | app.js:461-481 | The line loop of one chunk: `fullAiText` is the concatenation of the pieces so far, extended by the chunk's pieces; every display is derived from an accumulated text. |
| Stream.DecodeStream | app.js:453-484 | The stream loop: `fullAiText` is exactly `StreamText(chunks)`, and the i-th display is `Display(role, Concat(pieces[..i+1]))`. |
| Chat.FailureMessage | app.js:439-445 | A task throws after its request loop exactly when the outcome is not ok. |
| Chat.FailureMessagesDistinct | app.js:589-595 | The two rate-limit messages differ from each other and from every "API 오류" message. |
| Chat.HistoryLine | app.js:536 | Defines one excerpt line: `사용자(판사)` for a user turn or the room's role name for an AI turn, then `: `, then the turn's text. |
| Chat.HistoryContext | app.js:535-537 | With at most one turn, the excerpt is empty. |
| Chat.HistoryContextIgnoresLast | app.js:535-537 | The excerpt never includes the last turn, whatever it is. |
| Chat.HistoryContextLines | app.js:535-537 | With newline-free turns, the excerpt of `n >= 2` turns splits into exactly `n - 1` lines; line `i` is turn `i` behind its label (`사용자(판사)` or the role name). |
| Chat.QueuedQuestionInContext | app.js:535-537 | With two user questions queued, the earlier task's own question appears in its excerpt and the later one is what is left out. |
| Chat.InitialTasks | app.js:351-365 | One opening statement per role whose history is empty and none for the other: the number of tasks is the number of empty histories, the prosecutor's first. |
| Chat.Notice | app.js:373-642 | Defines the message a run adds to its room when it gives no answer: the missing-key text (app.js 376 and 522) or `오류가 발생했습니다: ` followed by the error message (app.js 491 and 640). |
| Chat.ChatSession.constructor | app.js:301-304 | Both histories start empty, no case is selected, and the queue is idle. |
| Chat.ChatSession.SelectCase | app.js:166-175 | An unknown id changes nothing; a known one is selected and both histories are reset. |
| Chat.ChatSession.RenderChatHistory | app.js:342-371 | Without a case the queue is untouched. Otherwise the initial tasks are appended and the queue drained, following `Drain`'s contract. |
| Chat.ChatSession.HandleChatSubmit | app.js:495-517 | Busy, or empty after `trim`: histories and queue unchanged. Otherwise one user turn with the trimmed text is appended to that room only, one reply task is pushed, and the queue is drained. |
| Chat.ChatSession.RunTask | app.js:373-642 | The body of `fetchInitialStatement` (app.js 373-493) and of `fetchAiResponse` (app.js 519-642); `handleChatSubmit` between them is modelled separately. No key: only the missing-key notice. Otherwise the waits are those of `RetrySpec`, and an answer is given exactly when the outcome is ok. The answer text is `StreamText(chunks)`, every display shows an accumulated snapshot, and exactly one AI turn with the raw text is appended. Any failure gives the call site's message and leaves the histories unchanged. A reply's excerpt is taken from the history as it stands when the task runs. |
| Chat.ChatSession.Execute | app.js:311-327 | Running the drained task, then `finally`: the queue is idle, nothing is lost or reordered, it re-arms exactly when tasks wait, and the room gains an AI turn exactly when answered. |
| Fallback.CountHits | app.js:829-830 | The hit count is at most the lexicon size. |
| Fallback.CountHitsExtremes | app.js:829-830 | No hit exactly when no word occurs; all hits exactly when every word occurs. |
| Fallback.EmotionScore | app.js:844 | The emotion score lies in 5..95. |
| Fallback.LegalScore | app.js:845 | The legal score lies in 5..95. |
| Fallback.ScoresMonotone | app.js:844-845 | More emotional or fewer legal hits never lower the emotion score nor raise the legal score. |
| Fallback.SampleScores | app.js:844-845 | No hits give 30 and 70; three legal hits give 15 and 95 (clamped from 100). |
| Fallback.Draw | app.js:842 | Drawing `n` from a pool gives as many elements as the smaller of `n` and the pool size. |
| Fallback.DrawFromPool | app.js:854 | Only pool elements are drawn. |
| Fallback.DrawDistinct | app.js:854 | A pool without repetitions yields distinct tags. |
| Fallback.CommonPool | app.js:847-850 | Defines `commonPool`: the emotional tags when an emotional word occurs, then the unfounded tags for a short text without legal words, then the pity tags when `불쌍` or `안타` occurs. |
| Fallback.CommonPoolDistinct | app.js:846-850 | No tag repeats inside or across the three conditional pools. |
| Fallback.MockBiases | app.js:838-861 | Defines the tag list: two drawn punitive tags in the harsh branch, otherwise two or three drawn from a non-empty `commonPool`, and one generic tag when nothing was drawn. |
| Fallback.MockAnalysis | app.js:819-870 | Defines the result of `generateMockAiData` for injected randomness: the harsh or general branch's scores and tags, the generic tag when none was drawn, and the reasons. |
| Fallback.GenerateMockAiData | app.js:819-870 | The method's result equals `MockAnalysis` of the text, sentence, title and randomness. |
| Fallback.MockBiasesDistinct | app.js:838-861 | The tag list is never empty and never repeats a tag. |
| Fallback.MockHarsh | app.js:833-842 | Extreme sentence with a minor case or a short text: scores 90 and 5, exactly two punitive-pool tags (distinct by `MockBiasesDistinct`). |
| Fallback.MockGeneral | app.js:843-861 | Otherwise: the clamped scores. A non-empty pool yields the smaller of its size and 2 or 3 tags from it; an empty pool yields exactly one generic tag. |
| Fallback.MockReasons | app.js:863-869 | The disproportion reasons are chosen if and only if the sentence is extreme and the case is minor. |
| Fallback.PityImpliesEmotionTags | app.js:846-850 | A text that expresses pity always has an emotional hit, so the tag pool then starts with the emotional tags. |
| Fallback.ShortAloneKeepsDefaultReasons | app.js:833-869 | An extreme sentence with a short text on a non-minor case gets the harsh scores but the default reasons. |
| Analysis.NumberOr50 | app.js:807-809 | Defines the score coercion `typeof x === 'number' ? x : 50`, used for both scores. |
| Analysis.ReasonOr | app.js:808 | The stored reason is never falsy. |
| Analysis.BiasesOr | app.js:811 | An empty tag list can only come from an empty array in the reply. |
| Analysis.Coerce | app.js:806-812 | Coercion fails (the field read throws) exactly on `null`. |
| Analysis.WellTypedReplyKept | app.js:806-812 | A reply object with both scores numbers, both reasons truthy and `biases` an array is stored with exactly its remote values. |
| Analysis.MistypedFieldsTakeDefaults | app.js:806-812 | In a reply object, each missing or mistyped field takes its own default (50, the placeholder reason, `["분석 불가"]`), whatever the other fields hold. |
| Analysis.NonObjectTakesDefaults | app.js:806-812 | A non-null value that is not an object takes every default. |
| Analysis.CoercionKeepsRemoteValues | app.js:806-812 | Remote scores are not clamped and an empty tag array stays empty. |
| Analysis.FailureFallsBack | app.js:798-816 | A rejected call, a non-ok status, an unreadable or `null` payload all store the heuristic's result, whose tag list is non-empty. |
| Analysis.AnalysisFor | app.js:798-816 | Defines the analysis stored once a key is present: the coerced reply when the status is ok, the payload was read and it is not `null`; otherwise the heuristic's result, as the `catch` stores it. |
| Analysis.AnalysisState.FetchRealAiAnalysis | app.js:748-816 | No key: `aiAnalysis` is left as it was. Otherwise it becomes the coerced reply, or the heuristic's result on any failure. |
| Verdicts.ByCase | app.js:38 | Defines `filter(v => v.caseId === caseId)`; the result is no longer than the list. |
| Verdicts.ByCaseMembers | app.js:38 | A verdict is kept exactly when it is in the list and has the case id. |
| Verdicts.ByCaseConcat | app.js:38 | Filtering preserves order: filtering a list cut anywhere into an earlier and a later part gives the earlier part's verdicts of the case followed by the later part's. |
| Verdicts.ByCaseIdempotent | app.js:38 | Filtering twice by the same case changes nothing. |
| Verdicts.GuiltyCount | app.js:47 | Defines `filter(v => v.verdict === '유죄').length`; it is at most the number of verdicts. |
| Verdicts.EmotionSum | app.js:62 | Defines the `reduce` sum of the emotion scores that the average divides; a score of 0 adds 0, as the source's fallback to 0 does. |
| Verdicts.LegalSum | app.js:63 | Defines the `reduce` sum of the legal scores that the average divides; a score of 0 adds 0, as the source's fallback to 0 does. |
| Verdicts.TallyKeys | app.js:50-55 | The sentence dictionary's keys are exactly the truthy sentences that occur, each once. |
| Verdicts.Tally | app.js:50-55 | Defines the `sentences` dictionary as the `forEach` builds it, incrementing the entry of each truthy sentence in list order. |
| Verdicts.TallyCounts | app.js:50-55 | Each sentence is counted separately: its entry is the number of verdicts whose truthy sentence it is, and a sentence no verdict carries has no entry. |
| Verdicts.TallySums | app.js:50-55 | The dictionary's counts add up to the number of verdicts with a truthy sentence. |
| Verdicts.Round | app.js:59-63 | Defines `Math.round(n / d)` exactly in integers as `(2n + d) div 2d`. |
| Verdicts.RoundNearest | app.js:59-63 | The exact `Math.round(n / d)` is within half a unit of `n / d`, rounding halves up. |
| Verdicts.RoundBounds | app.js:59-63 | A ratio between `lo` and `hi` rounds to a value between them. |
| Verdicts.RatesSum | app.js:59-60 | The guilty and innocent rates add up to 100 or 101. |
| Verdicts.RatesCanSumTo101 | app.js:59-60 | One guilty verdict out of eight gives 13 + 88 = 101. |
| Verdicts.StatsOf | app.js:44-65 | Defines the value `computeStats` returns: `null` for no verdicts; otherwise the total, both rounded rates, the sentence dictionary and both rounded averages. |
| Verdicts.ComputeStats | app.js:44-65 | The loop filling the dictionary yields exactly `StatsOf(vs)`: `null` for no verdicts; otherwise total, both rates, the tally, and both averages. |
| Verdicts.StatsRates | app.js:44-61 | `null` exactly for an empty list. Otherwise the total is the list length, both rates lie in 0..100, and they add up to 100 or 101. |
| Verdicts.StatsSentences | app.js:50-61 | The statistics' dictionary holds exactly the sentences that occur, and its counts add up to the verdicts with a sentence. |
| Verdicts.StatsSentenceCounts | app.js:50-63 | Each entry of the statistics' sentence dictionary is the number of verdicts carrying that sentence; sentences no verdict carries are absent. |
| Verdicts.AveragesBounded | app.js:62-63 | Scores in 0..100 give averages in 0..100. |
| Verdicts.ContextText | app.js:71-78 | The context text opens with the header line, which includes the verdict count. |
| Verdicts.VerdictStore.constructor | app.js:27 | An absent store reads as the empty list. |
| Verdicts.VerdictStore.SaveVerdict | app.js:25-33 | The record is appended; nothing else changes. |
| Verdicts.VerdictStore.GetVerdictsByCaseId | app.js:35-42 | The result holds exactly the stored verdicts of that case. |
| Verdicts.VerdictStore.BuildLearningContext | app.js:67-79 | Empty if and only if the case has fewer than 100 verdicts; otherwise the text opens with the header and the count. |
| Verdicts.VerdictStore.UpdateLastVerdictWithSurvey | app.js:280-297 | No-op on an empty list. Otherwise only the last record changes, and only its survey, to `q5 = 100` when the positive choice is active and 0 otherwise. |
| Text.ContainsIff | app.js:829 | `includes` holds if and only if the word occurs at some position. |
| Text.Split | app.js:462 | `split('\n')` gives at least one piece, none containing a newline. |
| Text.JoinSplit | app.js:462 | Joining the pieces of `split('\n')` with newlines gives the text back. |
| Text.SplitJoin | app.js:537 | Splitting newline-free pieces joined with newlines gives the pieces back. |
| Text.Trim | app.js:506 | `trim` returns a piece of the input with only white space around it, which neither starts nor ends with white space; it is empty exactly when the input is all white space. |
| Text.ParseNatToString | app.js:444 | The decimal rendering of a status reads back as the same number. |
| Text.IntToString | app.js:72-74 | An interpolated integer starts with `-` exactly when it is negative. |

## Left out

- **Page and UI.** The DOM, view routing and `appendChatMessage`'s element handling are not modelled. Neither are the loading indicator, the progress animations of `runMockAnalysis` and the register button, and `renderResults`. They produce output only, and their only logic (escaping and emphasis) is modelled.
- **Timing.** The passage of time, `setTimeout` and `setInterval` are not modelled. The one-second re-arm is returned by `Finish` as a flag, and backoff waits are recorded by duration.
  - Because of this, the interleaving of events during the cooldown is not modelled, nor is user input between a task's `await` points. The lemma `QueuedQuestionInContext` covers the one consequence that the history excerpt shows.
- **The network.** `fetch`, `response.body.getReader()` and `TextDecoder` are not modelled. Responses are injected, and the stream arrives as already decoded text chunks. A read that rejects mid-stream is not modelled.
- **JSON.** `JSON.parse` and `JSON.stringify` are not modelled. Frames and the analysis reply are abstract parsed values.
- **Prompts.** The prompt wording and the case text placed in it are not modelled. `historyContext` is the only part with logic.
- **Storage.** `localStorage` and the `try`/`catch` blocks around it are not modelled. The store is an in-memory list.
- **Randomness.** `Math.random` and the bias of its comparator shuffle are not modelled. Any sequence of picks is admitted.
- **Numbers.** Floating point is not modelled. Scores are integers, and `Math.round` of a ratio is computed exactly as `(2n + d) / (2d)`. Near a half this can differ from the JavaScript:
  - In double precision, 23 guilty of 40 gives `(23 / 40) * 100 == 57.49999999999999`, which `Math.round` makes 57. The exact rate is 57.5, and the model gives 58.
  - The innocent rate, `(17 / 40) * 100 == 42.5`, is 43 in both. So the JavaScript rates add up to 100 and the model's to 101.
  - The bound of `RatesSum`, 100 to 101, holds for both.
  - The remote analysis could return fractional scores, which the model cannot express.
- **Strings.** `toLowerCase` is not modelled: it is the identity on the Hangul lexicons. Lengths count characters, not UTF-16 code units.
- **Tasks without a case.** A task run while `state.selectedCase` is `null` is not modelled: reading the case's title would throw. Tasks are only pushed after a case is selected.
- **Results without an analysis.** `renderResults` reading an `aiAnalysis` that is still `null` is not modelled.
- **The outer fallback.** The `catch` in `runMockAnalysis` is not modelled. `fetchRealAiAnalysis` already catches every failure after its key check.
- **The current room.** `currentRole`, which `selectCase` resets, is not modelled. Nothing in the core reads it.
- Stream.DecodeStream: the display history is stated for every frame that contributes text. The page keeps only the last display, so the model keeps more than the page does.
- **Missing scores.** Every stored verdict carries integer scores, so the `|| 0` in `EmotionSum` and `LegalSum` is not modelled for a record that has no score. `saveVerdict` is always called with both scores (app.js:913-923).
