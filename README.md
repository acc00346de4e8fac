# InsightAI research pipeline, modelled in Dafny

InsightAI answers a research question in two ways. It can ask a Cortensor router for a completion. Otherwise it serves a canned demo answer. Either way it turns the free-text answer into a summary and bullet points. A client library has a second parser and builds dashboard links. An on-chain client submits tasks and polls for their results. This project models that logic and proves what it promises.

The modules, one per file:

- `Wrappers` (`wrappers.dfy`): `Option` and `Result`.
- `Text` (`text.dfy`): the JavaScript string operations the code relies on.
  - `trim` and the regular-expression class `\s`, both using the ECMAScript whitespace set.
  - `split` on one character, `startsWith`, `includes`/`indexOf`, and `replace` of a first occurrence.
  - ASCII `toLowerCase` and decimal rendering of integers.
- `ResearchParser` (`research_parser.dfy`): the API route's `parseResearchOutput`.
  - The `for` loop is the method `ScanLines`, proved equal to the specification functions `Bullets` and `FirstProse`. These recurse on the last line, so the loop invariants are plain prefix equalities.
  - The method `ParseResearchOutput` runs `ScanLines` on the non-blank lines and then applies the fallbacks. It is proved equal to the specification function `ResearchOutput`.
  - The sentence fallback splits on runs of `.`, `!` and `?`.
  - Marker stripping is kept exactly as written: the pattern `^[-•\d+.]\s*` removes one character. So `"1. x"` becomes `". x"` and `"12. x"` becomes `"2. x"`.
  - When a summary line is only terminators, the first sentence is missing and JavaScript prints `undefined.`.
- `ResearchParserExamples` (`research_parser_examples.dfy`): worked answers, proved through general lemmas.
- `DemoResponses` (`demo_responses.dfy`): `getDemoResponse`, an ordered keyword table tried on the lower-cased query.
  - The test is a plain substring test, so "Retail" selects the AI entry.
- `ResearchRoute` (`research_route.dfy`): the route handler `POST`.
  - The module constants come from the environment.
  - `USE_MOCK` is on when the variable is `"true"` or when no router URL is set.
  - The query is validated, and the prompt is built.
  - The router call is an oracle: a function from the request sent to the reply received.
  - The reply is normalised: `output || text || content || ""`, and `task_id` defaults to `"0"`. A truthy non-string output makes the parser throw.
  - The route falls back to demo mode whenever the router call fails.
  - `sources`, `verified` and `isDemo` are assembled last.
- `CortensorLib` (`cortensor_parser.dfy`): the client library's `parseResearchOutput` and `getVerificationUrl`.
  - The `for` loop is the method `CollectLines`, proved equal to `AltBullets`, `AltSources` and `LongProse`. The method `ParseResearchOutput` adds the bullet-count summary and is proved equal to `ParsedOutput`.
  - Bullets need a space after `-`/`•`.
  - Source lines are collected separately.
  - The summary must be longer than 50 characters. Otherwise the summary is "Found N key insights from the research.".
  - As written, both bullet replacements apply to one line. So `"- 3.5 GB"` loses its `3.` and becomes `"5 GB"`.
- `ChainClient` (`chain_client.dfy`): `submitTask`'s receipt-log scan, `waitForTaskResult`, `executeTask` and `verifySession`.
  - The chain is an oracle. A poll's answer is a function of the task and the poll number.
  - The clock is abstract: each iteration lasts the call's latency (an input) plus the poll interval.

The route's only mode decision is the `USE_MOCK` switch. The route never calls the on-chain client, so the model has no on-chain mode.

## Model

| member | source | states |
|---|---|---|
| Text.TrimStartSuffix | src/app/api/research/route.ts:53 | the `^\s*` removal keeps a suffix, removes only whitespace, and leaves a non-space first character |
| Text.TrimEndPrefix | src/app/api/research/route.ts:51 | trailing-whitespace removal keeps a prefix, removes only whitespace, and leaves a non-space last character |
| Text.TrimBlank | src/app/api/research/route.ts:46 | `line.trim()` is empty exactly when the line is all whitespace; otherwise both ends of the result are non-space |
| Text.TrimSlice | src/app/api/research/route.ts:51 | `line.trim()` is the middle of the line: what goes at either end is all whitespace, and a non-empty result neither starts nor ends with whitespace |
| Text.TrimIdempotent | src/app/api/research/route.ts:64 | trimming an already trimmed piece changes nothing |
| Text.TrimUnpadded | src/app/api/research/route.ts:51 | a line with non-space ends is its own trim |
| Text.TrimAfterSpace | src/app/api/research/route.ts:64 | a sentence after `". "` loses exactly its leading space when trimmed |
| Text.IndexOf | src/lib/cortensor.ts:97-98 | a found position leaves room for the pattern inside the string |
| Text.IndexOfFirst | src/lib/cortensor.ts:97-98 | `indexOf` gives the first occurrence, and not found means no occurrence anywhere (the basis of `includes` and `replace`) |
| Text.RemoveFirstFirst | src/lib/cortensor.ts:98 | `replace('Source:', '')` cuts out the first occurrence only, and leaves a line without one unchanged |
| Text.Lower | src/app/api/research/route.ts:128 | lower-casing keeps the length |
| Text.LowerAt | src/app/api/research/route.ts:128 | lower-casing works character by character |
| Text.LowerIdempotent | src/app/api/research/route.ts:128 | lower-casing twice is lower-casing once |
| Text.LowerOfNoUpper | src/app/api/research/route.ts:128 | text without upper-case letters is unchanged by lower-casing |
| Text.Split | src/app/api/research/route.ts:46 | `split("\n")` always gives at least one piece, and no piece holds the separator |
| Text.SplitJoin | src/app/api/research/route.ts:46 | joining the pieces back with the separator restores the input (nothing is lost) |
| Text.SplitCons | src/app/api/research/route.ts:46 | a separator-free first line followed by the separator becomes a piece of its own |
| Text.SplitNoSep | src/app/api/research/route.ts:46 | text without the separator is one piece |
| Text.NatToString | src/app/api/research/route.ts:165-166 | a rendered number is non-empty, made of digits, and has no leading zero unless the number is 0 |
| Text.NatToStringRoundTrip | src/app/api/research/route.ts:165-166 | reading a rendered number back gives the number |
| ResearchParser.KeepNonBlank | src/app/api/research/route.ts:46 | the filter never returns more lines than it was given, and every line it returns is non-blank and taken from the input |
| ResearchParser.KeepNonBlankAppend | src/app/api/research/route.ts:46 | the filter distributes over concatenation, so it keeps input order |
| ResearchParser.KeepNonBlankMembers | src/app/api/research/route.ts:46 | a line survives the filter exactly when it is in the input and its trim is non-empty |
| ResearchParser.LeadingDigits | src/app/api/research/route.ts:52 | the length of the leading `\d` run: all digits, followed by the end or a non-digit |
| ResearchParser.StripMarker | src/app/api/research/route.ts:53 | with a marker-class first character, exactly that one character and the whitespace after it go, leaving a non-space start; any other line is unchanged |
| ResearchParser.StripMarkerExamples | src/app/api/research/route.ts:53 | `"- Point A"` gives `"Point A"`, `"1. x"` gives `". x"`, `"12. x"` gives `"2. x"` |
| ResearchParser.BulletsAppend | src/app/api/research/route.ts:50-53 | bullets keep input order: the bullets of a concatenation are the bullets of each part in turn |
| ResearchParser.BulletsOfOneLine | src/app/api/research/route.ts:51-53 | a line gives exactly one bullet, its stripped text, when its trimmed form is a bullet line, and none otherwise |
| ResearchParser.FirstProseIsFirst | src/app/api/research/route.ts:54-56 | the summary is the first trimmed non-blank non-bullet line, and it is empty exactly when there is no such line |
| ResearchParser.FirstProseAppend | src/app/api/research/route.ts:54-56 | once a summary is set, later lines never change it |
| ResearchParser.Step | src/app/api/research/route.ts:50-57 | one more line adds its stripped text to the bullets if it is a bullet line, and otherwise becomes the summary if none is set yet |
| ResearchParser.ScanLines | src/app/api/research/route.ts:50-57 | the `for` loop collects exactly `Bullets` and `FirstProse` of the lines (loop invariants: both of the lines seen so far) |
| ResearchParser.DropTerminators | src/app/api/research/route.ts:61 | skipping a run of terminators never lengthens the text |
| ResearchParser.DropTerminatorsSuffix | src/app/api/research/route.ts:61 | exactly the leading run of `.`, `!`, `?` goes: a suffix is kept, what goes is all terminators, and what stays does not start with one |
| ResearchParser.DropTerminatorsRun | src/app/api/research/route.ts:61 | a whole run of terminators in front of text that does not start with one is dropped |
| ResearchParser.SplitSentences | src/app/api/research/route.ts:61 | `split(/[.!?]+/)` always gives at least one piece |
| ResearchParser.SplitSentencesPrefix | src/app/api/research/route.ts:61 | terminator-free text in front extends the first piece only |
| ResearchParser.SplitSentencesAtRun | src/app/api/research/route.ts:61 | every maximal run of `.`, `!`, `?` is one split point: `a + run + b` splits into `a` followed by the pieces of `b` |
| ResearchParser.SentencesHaveNoTerminator | src/app/api/research/route.ts:61 | no piece holds a `.`, `!` or `?` |
| ResearchParser.DropTerminatorsPreserves | src/app/api/research/route.ts:61 | skipping terminators loses nothing but terminators |
| ResearchParser.SplitSentencesLosesOnlyTerminators | src/app/api/research/route.ts:61 | concatenating the pieces gives the summary with its terminators removed |
| ResearchParser.TrimAll | src/app/api/research/route.ts:64 | `map((s) => s.trim())` trims each piece in place |
| ResearchParser.KeepNonEmpty | src/app/api/research/route.ts:64 | `filter(Boolean)` never returns more pieces than it was given, and every piece it returns is non-empty and taken from the input |
| ResearchParser.KeepNonEmptyAppend | src/app/api/research/route.ts:64 | `filter(Boolean)` distributes over concatenation, so it keeps order |
| ResearchParser.KeepNonEmptyMembers | src/app/api/research/route.ts:64 | a piece survives exactly when it is in the input and non-empty |
| ResearchParser.ParseResearchOutput | src/app/api/research/route.ts:45-69 | runs the line loop on the non-blank lines, then the fallbacks, and computes exactly `ResearchOutput` |
| ResearchParser.SplitOfBlank | src/app/api/research/route.ts:46 | every line of an all-whitespace answer is all whitespace |
| ResearchParser.KeepNonBlankOfBlank | src/app/api/research/route.ts:46 | filtering all-whitespace lines leaves nothing |
| ResearchParser.BlankLinesIgnored | src/app/api/research/route.ts:46-57 | blank lines add no bullet and never become the summary, so filtering them changes nothing |
| ResearchParser.ResearchOutputOfLines | src/app/api/research/route.ts:45-69 | the parse is the bullets and first prose line of `rawOutput.split("\n")` itself, with the sentence fallback when there are no bullets and the default summary when there is no prose |
| ResearchParser.BlankOutput | src/app/api/research/route.ts:46-68 | an empty or whitespace-only answer gives "Research completed successfully." and no bullets |
| ResearchParser.SummaryNeverEmpty | src/app/api/research/route.ts:60-68 | whatever the answer, the parsed summary is non-empty |
| ResearchParser.TrimKeepsNoTerminator | src/app/api/research/route.ts:64 | trimming a terminator-free piece keeps it terminator-free |
| ResearchParser.SentenceFallbackShape | src/app/api/research/route.ts:60-66 | in the fallback the summary ends in `.`, and every bullet is non-empty, trimmed and terminator-free |
| ResearchParser.PiecesBlank | src/app/api/research/route.ts:61 | every piece of a text made only of terminators and whitespace is whitespace |
| ResearchParser.TerminatorsOnlyFallback | src/app/api/research/route.ts:61-65 | a summary line made only of `.`, `!`, `?` and whitespace gives "undefined." and no bullets |
| ResearchParser.TerminatorsOnlyAnswer | src/app/api/research/route.ts:59-65 | a one-line answer made only of `.`, `!` and `?` parses to "undefined." and no bullets |
| ResearchParser.SplitSentencesAfterStop | src/app/api/research/route.ts:61 | a full stop before text that does not start with a terminator opens a new piece (`SplitSentencesAtRun` covers `!`, `?` and mixed runs) |
| ResearchParser.SplitStopped | src/app/api/research/route.ts:61 | `x + "." + rest` splits into `x` followed by the pieces of `rest` |
| ResearchParser.SplitThreeSentences | src/app/api/research/route.ts:61 | three full-stopped sentences split into the three sentences and a trailing empty piece |
| ResearchParser.FallbackOfThree | src/app/api/research/route.ts:60-66 | the fallback of three sentences gives the first plus `.` and the other two trimmed |
| ResearchParser.OneProseLine | src/app/api/research/route.ts:46-57 | a single non-bullet line is the summary and there are no bullets |
| ResearchParser.ThreeSentenceAnswer | src/app/api/research/route.ts:59-66 | a one-line answer of three sentences goes through the sentence fallback |
| ResearchParserExamples.DashBullet | src/app/api/research/route.ts:52-53 | `"- " + a` is a bullet line whose bullet is `a` |
| ResearchParserExamples.ThreeLines | src/app/api/research/route.ts:46 | three newline-free lines joined by newlines split back into those lines |
| ResearchParserExamples.ProseThenTwoBullets | src/app/api/research/route.ts:45-68 | a prose line followed by two `- ` bullets gives that line as the summary and the two bullet texts |
| ResearchParserExamples.MixedAnswerExample | src/app/api/research/route.ts:45-68 | "Decentralized inference is powerful." with bullets "- Point A" and "- Point B" gives that summary and ["Point A", "Point B"] |
| ResearchParserExamples.ThreeSentenceFallback | src/app/api/research/route.ts:59-66 | three plain sentences joined by `". "` give the first sentence plus `.` and the other two as bullets |
| ResearchParserExamples.SentenceFallbackExample | src/app/api/research/route.ts:59-66 | "First insight. Second insight. Third insight." gives "First insight." and ["Second insight", "Third insight"] |
| ResearchParserExamples.TerminatorsOnlyExample | src/app/api/research/route.ts:63 | an answer "?!" gives the summary "undefined." and no bullets |
| DemoResponses.FirstMatch | src/app/api/research/route.ts:127-137 | the ordered table falls through to the default exactly when no row's keyword occurs |
| DemoResponses.DemoEntryFor | src/app/api/research/route.ts:127-137 | the Cortensor entry iff "cortensor" or "decentralized inference" occurs in the lower-cased query; the AI entry iff neither occurs but "ai" or "artificial intelligence" does |
| DemoResponses.DemoEntryIsFirstMatch | src/app/api/research/route.ts:127-137 | the choice equals the first-row-wins reading of the keyword table |
| DemoResponses.DemoEntryIgnoresCase | src/app/api/research/route.ts:128 | a query and its lower-cased form select the same entry |
| DemoResponses.SubstringAiExample | src/app/api/research/route.ts:132 | "Retail" selects the AI entry, because "ai" is matched inside words |
| ResearchRoute.OrDefault | src/app/api/research/route.ts:4-6 | an environment value with a fallback is the variable unless it is unset or empty |
| ResearchRoute.ConfigOf | src/app/api/research/route.ts:4-7 | the router URL is empty iff its variable is unset or empty; `USE_MOCK` holds iff the variable is "true" or the router URL is empty; the router URL is the variable when it is set, the API key is the variable or "default-dev-token", the session id is the variable or "124", so neither is ever empty |
| ResearchRoute.RouterModeNeedsUrl | src/app/api/research/route.ts:7 | the router is used iff `USE_MOCK` is not "true" and a non-empty router URL is set, which is then the URL used |
| ResearchRoute.OptionalClause | src/app/api/research/route.ts:82-84 | an optional clause is detectable at the head when it starts differently from what follows |
| ResearchRoute.PromptFrame | src/app/api/research/route.ts:82-84 | with or without a URL, the prompt opens with the assistant preamble and ends with the question and the formatting instructions |
| ResearchRoute.PromptMentionsUrl | src/app/api/research/route.ts:82-84 | the prompt opens with the "Analyze this URL" clause iff `url` is truthy, and then it names that URL |
| ResearchRoute.PromptKeepsQuery | src/app/api/research/route.ts:82-84 | different questions give different prompts |
| ResearchRoute.RequestFor | src/app/api/research/route.ts:90-101 | the request carries the prompt and session id, is posted to `routerUrl + "/api/v1/completions/" + sessionId`, and is authorised with `"Bearer " + apiKey` |
| ResearchRoute.RequestReadBack | src/app/api/research/route.ts:90-93 | the session id reads back from the endpoint after the router URL and path, and the API key from the authorization after "Bearer " |
| ResearchRoute.RawOutput | src/app/api/research/route.ts:113 | the output is the first truthy of `output`, `text`, `content`, and "" when none is; a truthy non-string makes the parse throw |
| ResearchRoute.TaskIdText | src/app/api/research/route.ts:114 | the task id is never empty: a non-empty string is kept, a number is rendered, and a missing, null or empty id becomes "0" |
| ResearchRoute.NumericTaskIdKept | src/app/api/research/route.ts:114 | a numeric task id is rendered and reads back as itself |
| ResearchRoute.CallRouter | src/app/api/research/route.ts:72-124 | the call succeeds iff the router replies with a 2xx status, a JSON body and a string output, and then returns the parse of that output, the configured session and the normalised task id |
| ResearchRoute.Sources | src/app/api/research/route.ts:187 | sources is `[url]` when `url` is truthy, otherwise the documentation link |
| ResearchRoute.Post | src/app/api/research/route.ts:139-207 | 500 iff the body is malformed; 400 iff the query is not a non-empty string; otherwise `verified == !isDemo`, `isDemo` iff `USE_MOCK` or the router call failed, the demo reply with the drawn ids in demo mode, and the router's parse, session and task id otherwise |
| ResearchRoute.DemoIdsReadBack | src/app/api/research/route.ts:165-166 | the demo ids read back as the values drawn |
| ResearchRoute.NoRouterCallInDemoMode | src/app/api/research/route.ts:143-168 | in demo mode or for a rejected request, the response does not depend on the router |
| ResearchRoute.RouterSeenOnlyThroughRequest | src/app/api/research/route.ts:170-184 | the response depends on the router only through its reply to the one request built from the query |
| ResearchRoute.FailureFallsBackToDemo | src/app/api/research/route.ts:171-184 | any router failure gives exactly the demo response |
| CortensorLib.DropDash | src/lib/cortensor.ts:96 | a leading `-` or `•` and the whitespace after it are removed; otherwise the line is unchanged |
| CortensorLib.DropNumber | src/lib/cortensor.ts:96 | leading digits with their full stop and following whitespace are removed; otherwise the line is unchanged |
| CortensorLib.DropDashOfDash | src/lib/cortensor.ts:96 | after a leading `-`, exactly the whitespace that follows goes |
| CortensorLib.DropNumberOfDigit | src/lib/cortensor.ts:96 | after a one-digit number and its full stop, exactly the whitespace that follows goes |
| CortensorLib.NoMarkerKept | src/lib/cortensor.ts:96 | a line starting with neither a dash, a bullet sign nor a digit is left unchanged |
| CortensorLib.AltStripDashed | src/lib/cortensor.ts:96 | `"- " + x` loses its dash and space, and then the number replacement applies to `x` |
| CortensorLib.AltStripNumbered | src/lib/cortensor.ts:96 | `d + ". " + x` for a digit `d` gives `x` |
| CortensorLib.AltStripSuffix | src/lib/cortensor.ts:96 | the bullet text is a suffix of the trimmed line |
| CortensorLib.AltStripExamples | src/lib/cortensor.ts:96 | `"1. Point"` and `"- Point"` both give `"Point"` |
| CortensorLib.DashThenNumber | src/lib/cortensor.ts:96 | both replacements apply to one line: `"- " + d + "." + rest` gives `rest` for a digit `d` |
| CortensorLib.DashThenNumberExample | src/lib/cortensor.ts:96 | `"- 3.5 GB"` gives `"5 GB"`, because both replacements apply |
| CortensorLib.Step | src/lib/cortensor.ts:93-102 | one more line goes to the bullets, else to the sources, else becomes the summary if none is set and it is a candidate |
| CortensorLib.CollectLines | src/lib/cortensor.ts:93-102 | the `for` loop collects exactly `AltBullets`, `AltSources` and `LongProse` of the lines (loop invariants: all three of the lines seen so far) |
| CortensorLib.ParseResearchOutput | src/lib/cortensor.ts:88-109 | runs the line loop on the non-blank lines, then the bullet-count summary, and computes exactly `ParsedOutput` |
| CortensorLib.BucketsBounded | src/lib/cortensor.ts:93-102 | each line lands in at most one bucket: bullets, sources and summary together never outnumber the lines |
| CortensorLib.BlankLinesIgnored | src/lib/cortensor.ts:90-102 | blank lines land in no bucket, so filtering them changes nothing |
| CortensorLib.ParsedOutputOfLines | src/lib/cortensor.ts:88-109 | the parse is the buckets of `rawOutput.split('\n')` itself, with "Found N key insights from the research." when there are bullets but no summary line |
| CortensorLib.BucketsAppend | src/lib/cortensor.ts:93-98 | bullets and sources keep input order |
| CortensorLib.OneLine | src/lib/cortensor.ts:94-101 | precedence on one line: bullet first, then source, then summary candidate |
| CortensorLib.LongProseIsFirst | src/lib/cortensor.ts:99-101 | the summary line is the first line longer than 50 characters that is neither bullet nor source, and it is empty iff there is none |
| CortensorLib.SummaryRule | src/lib/cortensor.ts:99-108 | the summary is empty iff there is neither a candidate line nor a bullet; with bullets but no candidate it is "Found N key insights from the research."; a taken line is longer than 50 characters |
| CortensorLib.LongProseLong | src/lib/cortensor.ts:99 | a summary taken from the input is longer than 50 characters |
| CortensorLib.DashWithoutSpaceExample | src/lib/cortensor.ts:95 | `"-x"` is not a bullet, and as a short line it yields nothing |
| CortensorLib.VerificationUrl | src/lib/cortensor.ts:114-117 | the link starts with the dashboard session base and ends with the session id, followed by `/taskId` only when the task id is non-empty |
| CortensorLib.VerificationUrlRoundTrip | src/lib/cortensor.ts:114-117 | for ids without `/`, the path after the base splits back into the session id and the given task id |
| CortensorLib.VerificationUrlInjective | src/lib/cortensor.ts:114-117 | for ids without `/`, distinct sessions or distinct non-empty task ids give distinct links; an empty task id gives the same link as none |
| ChainClient.SpanAtLeast | src/lib/cortensor-web3.ts:158-171 | every iteration takes at least the poll interval |
| ChainClient.WaitForTaskResult | src/lib/cortensor-web3.ts:150-174 | the polling loop computes exactly `Await` from poll 0 at time 0 (the loop invariant keeps the remaining wait equal to the whole) |
| ChainClient.AwaitOutcome | src/lib/cortensor-web3.ts:156-173 | a result is the first result's text from the first answered poll, all earlier polls having been failed or empty; `null` comes only when no poll made was answered and the deadline has passed; every poll starts before the deadline |
| ChainClient.CeilingBound | src/lib/cortensor-web3.ts:158 | `n` iterations that start before the deadline number at most `ceil(timeoutMs / pollIntervalMs)` |
| ChainClient.PollBound | src/lib/cortensor-web3.ts:156-173 | at most `ceil(timeoutMs / pollIntervalMs)` polls whatever the chain does; none and `null` when `timeoutMs <= 0` |
| ChainClient.FailuresAreSwallowed | src/lib/cortensor-web3.ts:159-167 | a poll that throws has the same effect as an empty answer |
| ChainClient.FirstTaskQueued | src/lib/cortensor-web3.ts:122-132 | `find` gives the first log that decodes as `TaskQueued`, skipping logs that fail to decode, or none when there is none |
| ChainClient.QueuedTaskId | src/lib/cortensor-web3.ts:122-141 | the task id is that of the first log that decodes as `TaskQueued`, and 0 when no log does |
| ChainClient.QueuedTaskIdSkips | src/lib/cortensor-web3.ts:122-141 | logs before the first `TaskQueued` do not affect the task id |
| ChainClient.QueuedTaskIdFirstWins | src/lib/cortensor-web3.ts:122-141 | the first `TaskQueued` log decides the task id |
| ChainClient.SubmitTask | src/lib/cortensor-web3.ts:110-147 | it succeeds iff the submission is mined; `txHash` is the receipt hash; the task id is that of the first log that decodes as `TaskQueued`, and a non-zero id always comes from such a log; with no such log the id is 0 |
| ChainClient.ExecuteTask | src/lib/cortensor-web3.ts:177-210 | `success` iff a result came back; a failed submission gives `(false, null, 0, "")` with no poll; otherwise it waits on the reported task id, the sentinel 0 included |
| ChainClient.DefaultPollBound | src/lib/cortensor-web3.ts:153-154 | with the default 60 s timeout and 3 s interval a task is polled at most 20 times |
| ChainClient.VerifySession | src/lib/cortensor-web3.ts:213-232 | valid iff the session was read and is active, with its name and model; otherwise "Failed to get session: …" or "Session is not active", and never an exception |

## Left out

- The HTTP call is not modelled: `fetch`, the 15-second abort, header plumbing and JSON (de)serialisation (src/app/api/research/route.ts:86-112). The router is an oracle. Its `NetworkFailure` reply stands for any thrown error, an abort included.
- `delegateResearch` (src/lib/cortensor.ts:38-78) is a `fetch` wrapper with no logic of its own.
- The ethers plumbing is not modelled: the provider singleton, contract construction, wallet signing, `tx.wait` and `parseLog`. Nor is the field-by-field copy in `getSession`, `getTasksBySessionId` and `getTaskResults`. Receipts, decoded logs, poll answers and session records are inputs instead.
- `Math.random` is not modelled. The demo ids are parameters constrained to 1..100 and 0..9.
- The 1.5-second demo delay, `console` logging, the model name and the timestamp in the payload are not modelled.
- Post: the `url` field is modelled as an optional string. A non-string JSON `url` is not modelled.
- Post: `parseInt(sessionId)` in the request body is not modelled. The request carries the session id text.
- TaskIdText: the `toString` of an array or object task id is approximated as "[object Object]", and a boolean becomes "true"/"false". Floating-point ids are not modelled.
- Lower: only ASCII letters are lower-cased. Full Unicode `toLowerCase` is not modelled.
- Characters are Unicode code points. JavaScript's `length` counts UTF-16 units, so the "longer than 50 characters" test agrees only for text in the Basic Multilingual Plane.
- WaitForTaskResult: requires `pollIntervalMs > 0`. The source accepts any interval, but with a non-positive one its termination depends on the real clock, which the model does not have.
- WaitForTaskResult: the clock is abstract. Each iteration lasts the poll's latency (an input) plus exactly the poll interval. Timer lateness counts as latency.
- SubmitTask: `Number(bigint)` conversion of the task id is not modelled. The id is an unbounded natural number.
