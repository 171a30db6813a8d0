# Sales-call CRM with live transcription — a verified Dafny model

The system is a mobile CRM for a salesperson. It tracks leads (prospects, known by a WhatsApp number) and the calls and messages made to them ("interações"). While a call is made, it records the microphone and transcribes it live. The transcript can be sent to a cloud language model that suggests the outcome and writes a summary.

This project models the logic at the core of that system in Dafny and proves properties of it.

**Audio capture and transcription**
- `PcmWorklet` is the audio-worklet processor (`public/pcm-worklet.js`). It is a class over an `array<int>` buffer. It downsamples the microphone to 16 kHz by averaging windows, quantises to PCM16 and posts 160-sample frames. The buffer doubles when full and the pending tail moves to the front with `copyWithin`.
- `TranscriptMerge` holds the pure transcript rules of the recorder hook (`src/hooks/useAudioRecorder.ts`):
  - the de-duplication of streaming finals against the last 80 characters;
  - the `partial` + final display;
  - the bracketed interim marker of the browser recogniser and the `/\[.*\]$/` stripping.
- `RecorderSession` is the hook itself, as a class whose fields are its refs and React state. Each browser callback is a method: socket open, close and messages, timer ticks, recogniser results, the recorder's `stop` event and the refinement reply.
- `Backend` models the transcription server (`backend/main.py`):
  - `merge_with_overlap`;
  - the receive loops of `/ws/transcribe` and `/ws/vosk`, as methods over the sequence of inbound messages, proved against prefix-recursive specifications;
  - the input checks of `/transcribe`.

**CRM rules**
- `LeadTypes` holds the record types and the outcome and status tables (`src/types/lead.ts`).
- `Selectors` holds the "latest realised" and "earliest pending" selectors the pages share.
- `UseLeads` holds the lead/interaction join and the search filter (`src/hooks/useLeads.ts`).
- `Gemini` holds the reply handling of `interpretInteractionTranscript` (`src/lib/gemini.ts`):
  - the fence stripping;
  - the `{...}` fallback;
  - the normalisation of the answer against the offered outcomes.
- `InteractionForm` holds the outcome rules (engagement, new status), the sequence number, the automatic follow-up, the writes of a submit, the AI comment merge, and the form state as a class.
- `LeadsPage`, `LeadSearch`, `LeadSummary`, `AudioRecorderView`, `Atividade`, `Planilha` and `Dashboard` hold the filter presets, the search picker, the relative date labels, the duration label, the activity and sheet views, and the dashboard metrics of the corresponding pages and components.
- `Phone` holds the phone rendering shared by three components.

**Shared helpers**
- `Text` holds white space, trimming, lower-casing, digits and substring search.
- `Seqs` holds filter, flat-map, stable insertion sort and sub-sequences.
- `Wrappers` holds `Option` and `Result`.

**Conventions**
- Timestamps are integer milliseconds in local time. A calendar day is `t / 86400000`, and day 0 (1 January 1970) was a Thursday.
- Strings are `seq<char>` and audio bytes are `seq<bv8>`.
- The user-triggered and network-triggered steps are methods whose arguments carry what the outside world produced: the recogniser's text, an upload's URL, the model's parsed JSON.

## Model

| member | source | states |
|---|---|---|
| Text.Trim | backend/main.py:215-216 | `trim()`/`strip()` yields a trimmed text no longer than the input, and a trimmed text is left as it is |
| Text.TrimShape | src/hooks/useAudioRecorder.ts:205 | trimming keeps a middle slice with only white space dropped on either side, and is empty exactly when the text is all white space |
| Text.TrimIdempotent | src/pages/Leads.tsx:36 | trimming twice is trimming once |
| Text.TrimmedJoin | backend/main.py:231 | two non-empty trimmed texts joined by one space are trimmed already, so the outer `strip()` changes nothing |
| Text.ToLower | src/pages/Atividade.tsx:20 | lower-casing keeps the length and maps each character on its own |
| Text.ToLowerAppend | src/pages/Planilha.tsx:16 | lower-casing distributes over concatenation |
| Text.DigitsOnly | src/hooks/useLeads.ts:36 | `replace(/\D/g, '')` keeps only decimal digits, never lengthening the text |
| Text.DigitsOnlyEmpty | src/components/LeadSearch.tsx:31-32 | the digits are empty exactly when the text holds no digit |
| Text.Last | src/hooks/useAudioRecorder.ts:213 | `slice(-n)` is the suffix of length n, or the whole text when it is shorter |
| Text.NatToString | src/components/AudioRecorder.tsx:20 | `String(n)` is one or more digits without a leading zero |
| Text.ParseNatToString | src/components/AudioRecorder.tsx:20 | reading a rendered number back gives the number |
| Text.Join | src/lib/gemini.ts:43-45 | joining no parts gives "", one part gives that part, and more parts begin with the first |
| Seqs.Filter | src/hooks/useLeads.ts:39-43 | `filter` keeps exactly the passing elements, in order (a sub-sequence) |
| Seqs.Count | src/pages/Dashboard.tsx:19-20 | `filter(p).length` is at most the length and 0 exactly when nothing passes |
| Seqs.CountComplement | src/pages/Dashboard.tsx:19-20 | counts under a predicate and its negation add up to the length |
| Seqs.FlatMapMember | src/pages/Dashboard.tsx:12 | `flatMap` holds exactly the elements of the mapped lists |
| Seqs.Take | src/pages/Dashboard.tsx:34 | `slice(0, n)` is the prefix of length n, or the whole list when it is shorter |
| Seqs.SortByProps | src/pages/Atividade.tsx:42 | the sort orders by its key and is a permutation of its input |
| Seqs.SortByHead | src/pages/Leads.tsx:24-26 | the head of the stable sort is the first element with the smallest key |
| Seqs.SortedHeadSpec | src/pages/Leads.tsx:24-26 | `filter(q).sort(..)[0]` is none exactly when nothing passes, else a passing element with the least key, the first such one |
| Seqs.FilterSorted | src/pages/Atividade.tsx:32-42 | filtering a sorted list keeps it sorted |
| LeadTypes.DifferenceInDaysAtLeast | src/pages/Leads.tsx:53-54 | `differenceInDays(later, earlier) >= n` (n ≥ 1) holds exactly when at least n whole days elapsed |
| LeadTypes.ParseTipo | src/types/lead.ts:30 | a `tipo` column parses exactly for 'ligacao' and 'mensagem', back to the stored text |
| LeadTypes.TipoRoundTrip | src/types/lead.ts:30 | every type reads back from its stored value |
| LeadTypes.ParseLigacao | src/types/lead.ts:32-37 | a parsed call outcome renders back to the text it came from |
| LeadTypes.ParseMensagem | src/types/lead.ts:39-43 | a parsed message outcome renders back to the text it came from |
| LeadTypes.OutcomeRoundTrip | src/types/lead.ts:32-43 | every call and message outcome reads back from its stored value |
| LeadTypes.SharedOutcome | src/types/lead.ts:32-43 | 'agendou_reuniao' is the only value the two unions share |
| LeadTypes.LigacaoTable | src/types/lead.ts:45-51 | the call table has five distinct rows covering every call outcome |
| LeadTypes.MensagemTable | src/types/lead.ts:53-58 | the message table has four distinct rows covering every message outcome |
| Selectors.LatestRealizedSpec | src/pages/Planilha.tsx:29-31 | the latest realised interaction is none exactly when nothing was realised, else a realised one no other realised one postdates |
| Selectors.LatestRealizedOfTipoSpec | src/components/LeadSummary.tsx:21-27 | the same, restricted to calls or to messages |
| Selectors.NextPlannedSpec | src/components/LeadSummary.tsx:30-32 | the next contact is none exactly when nothing is pending, else the earliest pending one, ties going to list order |
| Selectors.EntriesMember | src/pages/Atividade.tsx:46-50 | a (lead, interaction) pair is listed exactly when the lead is loaded and the interaction is its own and passes the filter |
| UseLeads.JoinLeads | src/hooks/useLeads.ts:23-26 | every lead in fetched order gets exactly the fetched interactions with its id, in fetched order |
| UseLeads.JoinKeepsSequenceOrder | src/hooks/useLeads.ts:19 | interactions fetched by ascending sequence number stay so ordered under each lead |
| UseLeads.JoinPartition | src/hooks/useLeads.ts:25 | with distinct lead ids an interaction lands under at most one lead, and under none when its lead is not loaded |
| UseLeads.SearchLeads | src/hooks/useLeads.ts:31-44 | a term shorter than 2 gives nothing; otherwise exactly the leads matching by phone digits or lower-cased name, in order |
| UseLeads.DigitsOnlyToLower | src/hooks/useLeads.ts:36-40 | lower-casing the term does not change its digits |
| UseLeads.SearchWithoutDigits | src/hooks/useLeads.ts:36-40 | a term without digits phone-matches every lead, so it returns all leads |
| UseLeads.SearchNamelessByPhone | src/hooks/useLeads.ts:40-41 | a lead without a name is found exactly when its phone digits contain the term's digits |
| Phone.FormatPhoneDigits | src/pages/Leads.tsx:71-77 | eleven digits render as "+55 DD NNNNN-NNNN": 17 characters whose digits are 55 followed by the original digits |
| Phone.FormatPhoneOther | src/pages/Leads.tsx:76 | any other digit count leaves the text as typed |
| Phone.FormatPhoneIdempotent | src/pages/Leads.tsx:71-77 | rendering a rendered number changes nothing |
| LeadsPage.NextPlannedDateSpec | src/pages/Leads.tsx:23-28 | the next planned date is none exactly when nothing is pending, else the least planned date, carried by a pending interaction |
| LeadsPage.IsOverdueSpec | src/pages/Leads.tsx:30-33 | a lead is overdue exactly when some pending interaction was planned before now |
| LeadsPage.FilteredLeads | src/pages/Leads.tsx:35-69 | the result keeps, in order, exactly the leads matching the trimmed lower-cased term and the preset |
| LeadsPage.BlankSearchKeepsAll | src/pages/Leads.tsx:39-45 | a blank term with the 'all' preset lists every lead in order |
| LeadsPage.NeverSpec | src/pages/Leads.tsx:47-50 | 'never' keeps exactly the leads with no realised interaction |
| LeadsPage.StaleSpec | src/pages/Leads.tsx:52-55 | 'stale' keeps exactly the leads not updated for `staleDays` whole days or more |
| LeadsPage.DatePresetsNeedPending | src/pages/Leads.tsx:57-58 | 'today', 'tomorrow' and 'week' drop every lead with nothing pending |
| LeadsPage.TodayTomorrowDisjoint | src/pages/Leads.tsx:60-61 | no lead is kept by both 'today' and 'tomorrow' |
| LeadsPage.TomorrowWithinWeek | src/pages/Leads.tsx:61-64 | a lead due tomorrow is also within the coming week |
| LeadsPage.StepFilters | src/pages/Leads.tsx:251-267 | the "-" button keeps the count ≥ 1, "+" keeps it ≤ 365, "Limpar" restores 'all' and 7, a preset button keeps the count |
| LeadsPage.StaleDaysInRange | src/pages/Leads.tsx:251-255 | from any count in [1, 365], every sequence of presses stays in [1, 365] |
| LeadsPage.StaleDaysFromStart | src/pages/Leads.tsx:251-267 | from the initial filters every sequence of presses keeps the count in [1, 365] |
| LeadsPage.StaleStepBy1 | src/pages/Leads.tsx:251-255 | one press moves the count by one day, except at the bounds where it stays |
| LeadsPage.ShortLabelsArePrefixes | src/pages/Leads.tsx:91-101 | each short status label begins the full label of its status |
| LeadsPage.UnknownStatusVerbatim | src/pages/Leads.tsx:99 | an unknown status is shown as it is |
| LeadSearch.IsPhoneNumberSpec | src/components/LeadSearch.tsx:31 | `isPhoneNumber` holds exactly when the term has a digit somewhere |
| LeadSearch.Type | src/components/LeadSearch.tsx:110-113 | typing sets the term and opens the list |
| LeadSearch.Focus | src/components/LeadSearch.tsx:114 | focusing opens the list and keeps the term |
| LeadSearch.Dismiss | src/components/LeadSearch.tsx:42-63 | a tap outside or Escape closes the list and keeps the term |
| LeadSearch.HandleSelect | src/components/LeadSearch.tsx:73-77 | selecting clears the term and closes the list |
| LeadSearch.HandleCreateNew | src/components/LeadSearch.tsx:79-86 | with ten digits or more the digits are handed on and the box reset; otherwise nothing happens |
| LeadSearch.BrowseLeadsSpec | src/components/LeadSearch.tsx:88-96 | browsing shows min(12, n) leads: the first loaded ones in recent mode, leads of the list in collation order in A–Z mode |
| LeadSearch.PanelShownIffOpen | src/components/LeadSearch.tsx:98-119 | a panel shows exactly while the list is open, and browses exactly when the trimmed term is shorter than 2 |
| LeadSearch.ResultsSpec | src/components/LeadSearch.tsx:184-186 | the results panel shows the first min(5, n) of the n search matches (`slice(0, 5)`), so 1 to 5 matching leads in loaded order |
| LeadSearch.CreateOptionSpec | src/components/LeadSearch.tsx:218-233 | "Criar novo lead" is offered exactly when searching with no result and ten digits or more |
| LeadSearch.CreateOptionSubmits | src/components/LeadSearch.tsx:221 | choosing the offered option always hands the digits on and hides the panel |
| LeadSearch.HintSpec | src/components/LeadSearch.tsx:234-237 | the hint appears with fewer than ten digits and asks for more digits exactly when the term has a digit |
| LeadSearch.SelectHidesPanel | src/components/LeadSearch.tsx:73-77 | after a selection no panel shows |
| LeadSummary.LabelText | src/components/LeadSummary.tsx:36-39 | the relative labels have a text; the day-and-month one is rendered by the locale |
| LeadSummary.FormatDateSpec | src/components/LeadSummary.tsx:34-41 | "hoje" exactly on today, "amanhã" exactly on tomorrow, "em N dias" with 1 ≤ N ≤ 7 only after tomorrow and N to N+1 days ahead |
| LeadSummary.FormatDateInDays | src/components/LeadSummary.tsx:38-39 | every date after tomorrow and less than eight days ahead gets "em N dias" |
| LeadSummary.FormatDatePast | src/components/LeadSummary.tsx:40 | a date before today is shown as day and month |
| LeadSummary.EmDiasRoundTrip | src/components/LeadSummary.tsx:39 | the number inside "em N dias" reads back as N |
| LeadSummary.StatusLabelsAgree | src/components/LeadSummary.tsx:54-64 | the card labels the six statuses exactly as `STATUS_OPTIONS` does |
| LeadSummary.UnknownStatusVerbatim | src/components/LeadSummary.tsx:62 | an unknown status is shown as it is |
| LeadSummary.FirstEngaged | src/components/LeadSummary.tsx:67 | `find(i => i.engajou)` finds something exactly when some interaction engaged, and it engaged |
| LeadSummary.FirstEngagedIsFirst | src/components/LeadSummary.tsx:67 | the interaction found is the first engaged one in list order |
| AudioRecorderView.PadStart2 | src/components/AudioRecorder.tsx:20 | `padStart(2, '0')` ends with the input and pads with zeros to length 2 |
| AudioRecorderView.PadKeepsValue | src/components/AudioRecorder.tsx:20 | padding keeps the digits and the value |
| AudioRecorderView.FormatDurationRoundTrip | src/components/AudioRecorder.tsx:17-21 | the label reads back as minutes, a colon and two digits of seconds below 60, with minutes·60 + seconds the input |
| AudioRecorderView.OneHour | src/components/AudioRecorder.tsx:17-21 | an hour shows "60:00": minutes are not carried into hours |
| AudioRecorderView.ViewSpec | src/components/AudioRecorder.tsx:27-55 | the button stops exactly what the timer is timing, timer and hint are never shown together, and the timer shown reads back as the recording's duration |
| AudioRecorderView.Press | src/components/AudioRecorder.tsx:27 | `onClick` on the hook's recorder: while recording it asks the recorder to stop and the view stays until the `stop` event; otherwise it starts, and the view then offers stop with "0:00"; without a microphone nothing changes |
| Gemini.ModelText | src/lib/gemini.ts:93-95 | no text exactly when the parts path is missing; an empty text exactly when no part has a truthy `text` |
| Gemini.Texts | src/lib/gemini.ts:94 | `map(p => p?.text).filter(Boolean)` keeps exactly the non-empty texts |
| Gemini.TextsFilter | src/lib/gemini.ts:94 | the kept texts are the truthy parts' texts, each as often as it occurs and in the parts' order (`Seqs.Filter` then `Seqs.Map`) |
| Gemini.TextsNone | src/lib/gemini.ts:94 | no text is kept exactly when no part has a truthy `text` |
| Gemini.CleanFences | src/lib/gemini.ts:24-32 | the cleaned text is trimmed and no longer than the reply |
| Gemini.CleanUnfenced | src/lib/gemini.ts:25-30 | a reply without fences is only trimmed |
| Gemini.CleanJsonFenced | src/lib/gemini.ts:27 | a payload in a "```json" fence (any case) comes back exactly |
| Gemini.CleanBareFenced | src/lib/gemini.ts:28-29 | a payload in a bare "```" fence comes back exactly |
| Gemini.BraceSpanSpec | src/lib/gemini.ts:106 | `/\{[\s\S]*\}/` matches exactly when a `{` precedes a `}`, spanning the first `{` to the last `}` |
| Gemini.ConfiancaOf | src/lib/gemini.ts:117-120 | the confidence is the answer's when it is one of the three values, else "media" |
| Gemini.Normalize | src/lib/gemini.ts:111-127 | the suggestion survives exactly when it is an offered string; the summary defaults to "" and the next step to null |
| Gemini.NormalizeEncode | src/lib/gemini.ts:111-127 | a well-formed answer passes the normalisation unchanged |
| Gemini.NormalizeIdempotent | src/lib/gemini.ts:111-127 | normalising twice is normalising once |
| Gemini.ParseReply | src/lib/gemini.ts:101-109 | the reply parses exactly when the cleaned text or, failing that, its `{...}` span parses, and the value is that first successful parse; parsing fails only when the cleaned text does not parse; "no JSON" exactly when it also holds no `{...}` |
| Gemini.InterpretMissingText | src/lib/gemini.ts:93-99 | "Gemini não retornou texto." exactly when the reply has no parts path or none of its parts has a truthy `text` |
| Gemini.InterpretNoJson | src/lib/gemini.ts:106-107 | the "no JSON" error means the text does not parse and holds no `{...}` |
| Gemini.InterpretSuggestsOffered | src/lib/gemini.ts:111-115 | any successful interpretation suggests only an offered outcome |
| Gemini.OptionLines | src/lib/gemini.ts:44 | one "- value: v \| label: l" line per offered outcome, in order |
| Gemini.LinesJoin | src/lib/gemini.ts:43-45 | splitting lines joined by "\n" gives them back when none holds a newline |
| Gemini.OptionsListLines | src/lib/gemini.ts:43-45 | the prompt's list has exactly one line per offered outcome |
| InteractionForm.EngajouLigacao | src/components/InteractionForm.tsx:72 | every call outcome engages except no answer and invalid number |
| InteractionForm.EngajouMensagem | src/components/InteractionForm.tsx:72 | every message outcome engages except no reply |
| InteractionForm.NewStatusLigacao | src/components/InteractionForm.tsx:75-82 | a call outcome sets the status of the call table, whatever the current status |
| InteractionForm.NewStatusMensagem | src/components/InteractionForm.tsx:75-82 | a message outcome sets the status of the message table, whatever the current status |
| InteractionForm.NewStatusOther | src/components/InteractionForm.tsx:81 | an outcome matching no rule keeps the lead's status |
| InteractionForm.NewStatusKnown | src/components/InteractionForm.tsx:75-82 | from one of the six known statuses every outcome text leads to one of the six |
| InteractionForm.Sequencia | src/components/InteractionForm.tsx:152 | the sequence number is at least 1, and 1 exactly when the lead has no interaction of that type |
| InteractionForm.SequenciaNext | src/components/InteractionForm.tsx:152 | one more interaction moves the number on by one for its own type only |
| InteractionForm.FollowUpSpec | src/components/InteractionForm.tsx:166-201 | a follow-up is planned exactly for an unanswered attempt 1 to 3 without a pending successor: 1, 3 or 6 days later, numbered next, blank |
| InteractionForm.FollowUpNotRepeated | src/components/InteractionForm.tsx:177-183 | once stored, the same attempt plans no second follow-up |
| InteractionForm.SubmitWritesSpec | src/components/InteractionForm.tsx:150-208 | no outcome, no write; else the realised interaction first (next number, done now, the outcome, its engagement, the notes or none when blank, the audio URL), the update to the outcome's new status last, and the planned follow-up between exactly when one is due |
| InteractionForm.AiBlock | src/components/InteractionForm.tsx:273-275 | the AI block starts with "IA (" |
| InteractionForm.MergeAiKeepsNotes | src/components/InteractionForm.tsx:277-283 | the block goes before the user's trimmed notes, which are kept |
| InteractionForm.MergeAiTwice | src/components/InteractionForm.tsx:280-281 | a second interpretation adds no second block |
| InteractionForm.FormState.constructor | src/components/InteractionForm.tsx:28-43 | the type starts as the next planned contact's, else a call; everything else is empty and idle |
| InteractionForm.FormState.SelectTipo | src/components/InteractionForm.tsx:581 | choosing the type sets it and keeps the outcome |
| InteractionForm.FormState.SelectResultado | src/components/InteractionForm.tsx:615 | choosing an outcome sets it |
| InteractionForm.FormState.EditComments | src/components/InteractionForm.tsx:510-512 | typing keeps the first 500 characters and marks the comments edited |
| InteractionForm.FormState.SyncTranscript | src/components/InteractionForm.tsx:51-55 | a non-empty transcript replaces unedited comments only |
| InteractionForm.FormState.RecordingChanged | src/components/InteractionForm.tsx:58-60 | recording sets the audio status to recording; stopping leaves it |
| InteractionForm.FormState.RecorderStopped | src/components/InteractionForm.tsx:84-99 | a returned blob replaces the old one, drops its URL and starts uploading; no blob changes nothing |
| InteractionForm.FormState.UploadFinished | src/components/InteractionForm.tsx:100-108 | the upload's URL is kept and the status is uploaded, or the status is error |
| InteractionForm.FormState.ClearAudio | src/components/InteractionForm.tsx:112-120 | blob and URL are dropped and the status is idle |
| InteractionForm.FormState.InterpretDone | src/components/InteractionForm.tsx:269-284 | a non-empty suggestion becomes the outcome; the AI block is merged into the comments, which start with "IA (" and count as edited |
| InteractionForm.FormState.Submit | src/components/InteractionForm.tsx:122-223 | no outcome: error and no change; a failed pending upload: error before any write; a failed write: error, the outcome and notes kept and the upload settled; otherwise the writes of `SubmitWrites` and a reset form |
| Atividade.LastRowsMember | src/pages/Atividade.tsx:23-30 | a row per lead with a realised interaction, holding its latest one |
| Atividade.ByLeadMember | src/pages/Atividade.tsx:22-43 | the per-lead list holds exactly the matching leads with a realised interaction, each with its latest one |
| Atividade.ByLeadSorted | src/pages/Atividade.tsx:42 | the per-lead list is latest first and a permutation of the filtered rows |
| Atividade.ByLeadBlankTerm | src/pages/Atividade.tsx:33 | with a blank term every lead with a realised interaction has a row |
| Atividade.AllInteractionsMember | src/pages/Atividade.tsx:45-63 | the full list holds exactly the matching realised interactions of loaded leads |
| Atividade.AllInteractionsSorted | src/pages/Atividade.tsx:62 | the full list is latest first and a permutation of the filtered rows |
| Atividade.ByLeadInAll | src/pages/Atividade.tsx:22-63 | each per-lead row also appears in the full list |
| Atividade.Cards | src/pages/Atividade.tsx:91 | the tabs draw the first 50 per-lead rows and the first 100 interactions, or all of them when fewer |
| Planilha.RowsLeadsMember | src/pages/Planilha.tsx:18-42 | a row exactly for each matching lead, built from that lead |
| Planilha.RowsLeadsOrder | src/pages/Planilha.tsx:18-27 | `filter` then `map`: as many rows as matching leads, their leads a sub-sequence of the loaded leads, so one row per matching lead in loaded order |
| Planilha.RowsLeadsBlank | src/pages/Planilha.tsx:20 | a blank term keeps one row per lead, in order |
| Planilha.RowOfSpec | src/pages/Planilha.tsx:28-40 | a row's latest realised and next pending interactions are absent exactly when the lead has none, and are the lead's own |
| Planilha.RowsInteracoesMember | src/pages/Planilha.tsx:44-60 | every interaction of every lead, realised or not, is listed exactly when it matches |
| Planilha.RowsInteracoesSorted | src/pages/Planilha.tsx:61-65 | the sheet is newest first by its date and a permutation of the matching rows |
| Planilha.SheetDateFallback | src/pages/Planilha.tsx:62-63 | the sheet date is the realised date, else the planned date, else the creation date |
| Dashboard.HojeCountsAddUp | src/pages/Dashboard.tsx:19-20 | today's calls and today's messages add up to today's total |
| Dashboard.HojeMember | src/pages/Dashboard.tsx:14-17 | an interaction is counted today exactly when it belongs to a loaded lead and was realised today |
| Dashboard.RoundedPercent | src/pages/Dashboard.tsx:23 | `Math.round(100·e/n)` is at most 100, the nearest whole percentage (halves up), 0 for none, 100 for all |
| Dashboard.EngagementRateSpec | src/pages/Dashboard.tsx:22-24 | the rate is in [0, 100], nearest to the engaged share, 0 when none engaged and 100 when all did |
| Dashboard.ProximosSpec | src/pages/Dashboard.tsx:27-34 | up to five pending contacts of loaded leads, earliest first, as many as exist up to five |
| Dashboard.ProximosAreEarliest | src/pages/Dashboard.tsx:33-34 | no pending contact left out is planned before one shown |
| Dashboard.Weekly | src/pages/Dashboard.tsx:41-46 | seven counts, one per day of the week, each the interactions realised that day |
| Dashboard.WeeklySpec | src/pages/Dashboard.tsx:37-39 | the week starts on a Monday on or before today and ends on the Sunday after; today's bar counts today's interactions |
| Dashboard.MaxAtividade | src/pages/Dashboard.tsx:48 | the maximum is at least 1, bounds every count and is 1 or one of the counts |
| Dashboard.BarHeightSpec | src/pages/Dashboard.tsx:133 | every bar is 10% to 100% high and the highest bar is 100% |
| PcmWorklet.Trunc | public/pcm-worklet.js:44 | truncation toward zero, as a store into an integer array does |
| PcmWorklet.ToInt16 | public/pcm-worklet.js:44 | the `Int16Array` store lands in [-32768, 32767], and is plain truncation for values in range |
| PcmWorklet.FloatToInt16 | public/pcm-worklet.js:17-20 | `_floatToInt16` is in [-32768, 32767] and keeps the sign |
| PcmWorklet.Quantise | public/pcm-worklet.js:44 | a stored sample is in the 16-bit range |
| PcmWorklet.QuantiseSpec | public/pcm-worklet.js:17-20 | a stored sample is the truncated scaled value: full scale at ±1 and beyond, 0 at 0, sign-preserving |
| PcmWorklet.QuantiseMonotonic | public/pcm-worklet.js:17-20 | quantisation never reorders samples |
| PcmWorklet.RunPartition | public/pcm-worklet.js:30-46 | the emitted windows and the open window are exactly the input samples, none skipped, repeated or reordered, no window empty |
| PcmWorklet.RunAcc | public/pcm-worklet.js:33-35 | the accumulator adds `outRate` per input and loses `inRate` per output, never negative, below `inRate` when downsampling |
| PcmWorklet.RunWholeRatio | public/pcm-worklet.js:30-46 | with a whole ratio k (48 kHz gives 3), every output of a run that starts in step (the accumulator matching the open window, as in the first call, where both are empty) averages exactly k samples; later calls need not start in step (see `QuantumLeavesShortWindow` and the `PcmWorklet.PcmWorkletProcessor.Process` line under "Left out") |
| PcmWorklet.QuantumLeavesShortWindow | public/pcm-worklet.js:28-35 | at 48 kHz a 128-sample call started in step leaves two samples in the dropped window and the accumulator at two thirds of an output, so the next call's first output averages one sample |
| PcmWorklet.PcmWorkletProcessor.constructor | public/pcm-worklet.js:5-15 | the input rate is the context's, the accumulator 0, the buffer 640 samples and empty |
| PcmWorklet.PcmWorkletProcessor.Push | public/pcm-worklet.js:39-44 | the sample is appended, the buffer doubling with its contents kept when full |
| PcmWorklet.PcmWorkletProcessor.Process | public/pcm-worklet.js:22-57 | no input: nothing changes; else the outputs are the quantised window means, posted frames plus pending samples are the old pending samples plus those, every frame has 160 samples, and it returns true |
| PcmWorklet.PcmWorkletProcessor.Accumulate | public/pcm-worklet.js:30-46 | the per-sample loop appends the quantised means of the windows the specification emits |
| PcmWorklet.PcmWorkletProcessor.Decimate | public/pcm-worklet.js:30-46 | over one channel, the buffer gains exactly the quantised means of the windows the specification closes, in order, and the accumulator ends where the specification's does |
| PcmWorklet.PcmWorkletProcessor.Step | public/pcm-worklet.js:31-45 | the sample joins the window (the running sum and count stay the window's), the accumulator moves as the specification's step does, and `emit` is set exactly when that step closes the window |
| PcmWorklet.PcmWorkletProcessor.Emit | public/pcm-worklet.js:36-44 | an emission adds the window to the windows emitted so far, so the buffer gains its quantised mean |
| PcmWorklet.PcmWorkletProcessor.Drain | public/pcm-worklet.js:49-55 | the drain posts 160-sample frames until fewer than 160 are pending, losing and reordering nothing |
| PcmWorklet.PcmWorkletProcessor.PostFrame | public/pcm-worklet.js:50-54 | one frame is the first 160 pending samples, and the rest move to the front |
| PcmWorklet.CopyWithin | public/pcm-worklet.js:52 | `copyWithin(0, from, end)` moves the slice to the front and leaves the rest |
| PcmWorklet.OutputsSoFar | public/pcm-worklet.js:8-9 | after n inputs at rate r ≥ 16 kHz, exactly ⌊n·16000/r⌋ outputs exist, as full frames and a pending tail |
| PcmWorklet.OneSecondAt48k | public/pcm-worklet.js:11-12 | one second at 48 kHz, however chunked, has become exactly 100 frames with nothing pending |
| TranscriptMerge.MergeFinal | src/hooks/useAudioRecorder.ts:203-223 | a blank final changes nothing; else the trimmed final text, or it plus one space and the final, unless its last 80 characters already end with the final (ignoring case) |
| TranscriptMerge.MergeFinalLong | src/hooks/useAudioRecorder.ts:213-218 | a final longer than 80 characters is always appended |
| TranscriptMerge.MergeFinalIdempotent | src/hooks/useAudioRecorder.ts:213-218 | a final of at most 80 characters delivered twice is kept once |
| TranscriptMerge.MergeFinalRepeat | src/hooks/useAudioRecorder.ts:215-216 | a final already ending the trimmed text leaves the text unchanged |
| TranscriptMerge.Combined | src/hooks/useAudioRecorder.ts:199 | the display is trimmed, and is the trimmed final text when there is no partial |
| TranscriptMerge.CombinedKeepsFinal | src/hooks/useAudioRecorder.ts:199 | the final text always leads the display |
| TranscriptMerge.CombinedJoin | src/hooks/useAudioRecorder.ts:199 | two non-empty trimmed parts are shown joined by one space |
| TranscriptMerge.FindMarker | src/hooks/useAudioRecorder.ts:95 | the search finds the leftmost position where `/\[.*\]$/` matches, or proves there is none |
| TranscriptMerge.StripMarker | src/hooks/useAudioRecorder.ts:95 | stripping leaves a prefix, and leaves the text whole exactly when nothing matches |
| TranscriptMerge.BaseText | src/hooks/useAudioRecorder.ts:95 | the base text is trimmed |
| TranscriptMerge.FinalPart | src/hooks/useAudioRecorder.ts:85-92 | the finals' text is empty exactly when the event holds no final |
| TranscriptMerge.NativeUpdate | src/hooks/useAudioRecorder.ts:94-100 | with a final: base + finals, trimmed; otherwise base and one ` [interim]` marker when there is interim text |
| TranscriptMerge.StripAddedMarker | src/hooks/useAudioRecorder.ts:95-99 | the marker an update adds is exactly what the next update strips |
| TranscriptMerge.InterimReplaced | src/hooks/useAudioRecorder.ts:94-100 | interim updates replace each other: an update after an interim-only one is as if that one never came |
| TranscriptMerge.InterimKeepsBase | src/hooks/useAudioRecorder.ts:94-100 | an interim-only update keeps the base text |
| TranscriptMerge.MarkedBase | src/hooks/useAudioRecorder.ts:95-99 | the base of a bracket-free text followed by one interim marker is that text |
| TranscriptMerge.PlainBase | src/hooks/useAudioRecorder.ts:95 | a trimmed, bracket-free text is its own base |
| TranscriptMerge.SameBaseSameUpdate | src/hooks/useAudioRecorder.ts:95 | an update depends on the earlier transcript only through its base text |
| RecorderSession.MicGain | src/hooks/useAudioRecorder.ts:48-52 | the gain is in [1, 6]: 2 for a non-finite setting, else the setting clamped |
| RecorderSession.MeterLevel | src/hooks/useAudioRecorder.ts:148 | the level is `rms·2.8` clamped into [0, 1] |
| RecorderSession.MeterLevelMonotonic | src/hooks/useAudioRecorder.ts:148 | a louder signal never shows a lower level |
| RecorderSession.Recorder.constructor | src/hooks/useAudioRecorder.ts:16-47 | the session starts idle and empty with the configured sources, and valid |
| RecorderSession.Recorder.Start | src/hooks/useAudioRecorder.ts:333-428 | no device: nothing changes; else chunks emptied, recording at 0 s, timer and meter on, sockets opened when configured, the recogniser started at once only with no socket configured |
| RecorderSession.Recorder.OpenChunkSocket | src/hooks/useAudioRecorder.ts:351-357 | the chunk socket is connecting and refining shows |
| RecorderSession.Recorder.BeginRecording | src/hooks/useAudioRecorder.ts:390-394 | the recorder runs, recording is on at 0 s and the meter runs |
| RecorderSession.Recorder.StartVoskStreaming | src/hooks/useAudioRecorder.ts:160-169 | the Vosk socket is connecting, not connected, and one more fallback timer is armed |
| RecorderSession.Recorder.Tick | src/hooks/useAudioRecorder.ts:411-413 | each tick adds one second |
| RecorderSession.Recorder.MeterTick | src/hooks/useAudioRecorder.ts:138-151 | the level becomes the clamped meter level |
| RecorderSession.Recorder.GraceTimeout | src/hooks/useAudioRecorder.ts:398-407 | the fallback starts the recogniser only when Vosk has not connected, a recogniser exists and no chunk socket is configured |
| RecorderSession.Recorder.VoskOpen | src/hooks/useAudioRecorder.ts:171-182 | the stream is open and connected, refining stops and a started recogniser is stopped |
| RecorderSession.Recorder.VoskDown | src/hooks/useAudioRecorder.ts:183-192 | the stream is not connected and refining stops, whichever socket the event comes from; only an event from the held socket closes it, a stale socket's event leaves the held one's state alone |
| RecorderSession.Recorder.VoskPartial | src/hooks/useAudioRecorder.ts:196-201 | a string partial is remembered and the display is final + partial; the final text is not touched |
| RecorderSession.Recorder.VoskFinal | src/hooks/useAudioRecorder.ts:203-224 | a string final is merged by `MergeFinal`, the partial cleared and the display is the final text |
| RecorderSession.Recorder.PublishFinal | src/hooks/useAudioRecorder.ts:220-223 | the final text is set, the partial cleared and the transcript shows the final text |
| RecorderSession.Recorder.VoskErrorMessage | src/hooks/useAudioRecorder.ts:226-229 | a server error marks the stream not connected |
| RecorderSession.Recorder.WorkletFrame | src/hooks/useAudioRecorder.ts:267-279 | a worklet frame is sent exactly while the Vosk socket is open |
| RecorderSession.Recorder.RecognizerResult | src/hooks/useAudioRecorder.ts:81-101 | the transcript becomes `NativeUpdate` of the old transcript |
| RecorderSession.Recorder.DataAvailable | src/hooks/useAudioRecorder.ts:370-388 | a non-empty chunk is kept, and sent when the chunk socket is configured and open |
| RecorderSession.Recorder.ChunkOpen | src/hooks/useAudioRecorder.ts:355 | the chunk socket is open and refining stops |
| RecorderSession.Recorder.ChunkDown | src/hooks/useAudioRecorder.ts:356-357 | refining stops whichever socket the event comes from; only an event from the held chunk socket closes it, a stale socket's event leaves the held one's state alone |
| RecorderSession.Recorder.ChunkMessage | src/hooks/useAudioRecorder.ts:358-367 | a string text replaces the transcript |
| RecorderSession.Recorder.SetTranscriptValue | src/hooks/useAudioRecorder.ts:21-23 | the transcript becomes the given text |
| RecorderSession.Recorder.StopLevelMeter | src/hooks/useAudioRecorder.ts:292-304 | the meter stops and shows 0 |
| RecorderSession.Recorder.StopVoskStreaming | src/hooks/useAudioRecorder.ts:306-331 | final and partial text cleared; an open socket is sent "stop"; the socket is let go |
| RecorderSession.Recorder.Stop | src/hooks/useAudioRecorder.ts:430-501 | no recorder: settles with null and nothing changes; else timer, recogniser, meter and Vosk stop, the recorder is asked to stop, the chunk socket is sent "stop" when open and let go |
| RecorderSession.Recorder.StopTimerAndRecognizer | src/hooks/useAudioRecorder.ts:437-447 | the timer stops and so does the recogniser when there is one |
| RecorderSession.Recorder.RequestRecorderStop | src/hooks/useAudioRecorder.ts:486 | an active recorder stops and will fire its `stop` event |
| RecorderSession.Recorder.StopChunkSocket | src/hooks/useAudioRecorder.ts:488-499 | an open chunk socket is sent "stop"; any held one is let go |
| RecorderSession.Recorder.RecorderStopped | src/hooks/useAudioRecorder.ts:452-484 | recording is off, the marker stripped, refinement requested when configured, and the blob is every chunk kept |
| RecorderSession.Recorder.EndRecording | src/hooks/useAudioRecorder.ts:458-467 | recording is off with the given transcript and refinement requested when configured |
| RecorderSession.Recorder.RefineDone | src/hooks/useAudioRecorder.ts:470-480 | a non-empty string text replaces the transcript, trimmed; any failure keeps it; refining stops either way |
| RecorderSession.Recorder.SettleRefine | src/hooks/useAudioRecorder.ts:472-480 | one request is settled with the given transcript and refining stops |
| RecorderSession.Recorder.Reset | src/hooks/useAudioRecorder.ts:503-510 | transcript, duration, level, refining, final and partial are cleared |
| Backend.BestOverlap | backend/main.py:222-228 | the descending search yields 0 or an overlap of 6 to k characters, and no longer one exists |
| Backend.MergeWithOverlap | backend/main.py:211-231 | an empty side yields the other stripped; the result is stripped and begins with the stripped base |
| Backend.OverlapJoin | backend/main.py:222-231 | the join of two non-empty stripped texts is stripped and begins with the base |
| Backend.OverlapJoinSpec | backend/main.py:222-231 | no overlap of at least 6: base + " " + addition; otherwise base + addition without its longest overlap |
| Backend.MergeRepeatAtEnd | backend/main.py:222-230 | an addition of 6 to 80 characters already ending the base (ignoring case) leaves the base |
| Backend.MergeShortOverlapKept | backend/main.py:225 | overlaps of at most five characters are never collapsed |
| Backend.MergeLongestWins | backend/main.py:225-228 | when an overlap of at least 6 exists, the longest one within the last 80 characters is removed |
| Backend.ChunkStep | backend/main.py:250-288 | a loop that was left ignores every further message |
| Backend.TranscribeSocket | backend/main.py:234-299 | nothing is sent when `get_model()` raises before the `try` (main.py:69-70, 238); otherwise the messages sent are those of the session specification |
| Backend.ChunkReceive | backend/main.py:251-288 | one pass is one step of the specification |
| Backend.ChunkRunDone | backend/main.py:253-260 | once the loop is left, later messages change nothing |
| Backend.ChunkControlEnds | backend/main.py:257-260 | "stop", "close" or "fim" ends the session whatever follows |
| Backend.ChunkIgnored | backend/main.py:261-270 | other text frames, empty frames and throttled frames change nothing |
| Backend.ChunkAccumulatedTrimmed | backend/main.py:287 | the accumulated text is always stripped |
| Backend.ChunkAccumulatedGrows | backend/main.py:286-288 | each message only extends the accumulated text |
| Backend.ChunkSentInvariant | backend/main.py:247-288 | the loop sends "ready" first and then only non-empty partials |
| Backend.VoskStep | backend/main.py:332-366 | a loop that was left ignores every further message |
| Backend.VoskSocket | backend/main.py:302-387 | the messages sent are those of the session specification: an error alone without a model |
| Backend.VoskReceive | backend/main.py:333-366 | one pass is one step of the specification |
| Backend.SendFinal | backend/main.py:352-358 | the accepted branch sends a non-empty final and forgets the last partial, as the specification says |
| Backend.SendPartial | backend/main.py:359-366 | the partial branch sends a non-empty partial only when it differs from the last one, as the specification says |
| Backend.VoskRunDone | backend/main.py:334-340 | once the loop is left, later messages change nothing |
| Backend.VoskRunInvariant | backend/main.py:331-366 | "ready" first, then non-empty finals and partials, never the same partial twice in a row |
| Backend.VoskPartialAfterFinal | backend/main.py:358-366 | after a final the same partial is sent again |
| Backend.VoskRepeatSuppressed | backend/main.py:362 | a partial equal to the last one sent is not sent again |
| Backend.ValidateUpload | backend/main.py:164-183 | an unsupported type is rejected with 400 and its message; then a model that fails to load (main.py:69-70, 167) gives 500 whatever the body; then an empty body is rejected with 400; an accepted upload needs conversion exactly when it is not WAV |

## Left out

- Audio capture: the microphone, `MediaRecorder`, `AudioContext`, the analyser, the worklet's message port, WebSocket transport, `fetch`, timers and `requestAnimationFrame` are outside the model. Their events are the methods of `RecorderSession.Recorder` and their payloads are arguments.
- Recognisers: speech recognition itself (browser recogniser, Vosk, faster-whisper) and the ffmpeg conversion are outside the model. Their outputs arrive as message fields (`Backend.ChunkMsg`, `Backend.VoskMsg`, `TranscriptMerge.RecResult`).
- Backend side effects: the `/client-log` endpoint, logging, frame and byte counters used only for logs, temporary files and the time-based throttle are not modelled. The throttle's verdict is the `due` field of a binary frame.
- Persistence: the Supabase queries and mutations (`useCreateLead`, `useUpdateLead`, `useCreateInteracao`, `useUploadAudio`) are network calls. `useLeads` is modelled on the rows they return. A submit is modelled as the list of writes it makes (`InteractionForm.SubmitWrites`). Whether the writes succeed is the `writesOk` argument of `InteractionForm.FormState.Submit`.
- Gemini request: the HTTP request and the API key are not modelled, and neither is the prompt text beyond the outcome list. `JSON.parse` is a function parameter.
- Gemini.ParseReply: a reply whose JSON is the literal `null` makes the source throw a TypeError when it reads `parsed.resultado_sugerido`; the model's parse parameter yields only answer objects, so that path is not modelled.
- Local transcription on interpret: the step of `handleInterpret` that calls the local `/transcribe` endpoint when there is no transcript (src/components/InteractionForm.tsx:226-258) is a network call and is not modelled. Neither is the toast shown when interpretation fails. `InteractionForm.FormState.InterpretDone` starts once the model has answered.
- Object URLs and UI: audio preview object URLs, toasts, `isSubmitting`, `isInterpreting`, `audioStatusLabel`'s use in the markup, `getStatusColor`, class names, carousels and the UI-only components are not modelled.
- Floating point: samples, the mic gain, the meter level and bar heights are `real` (exact arithmetic). The worklet's ratio accumulator is kept scaled by 16000, which is exact for integer sample rates. The engagement rate is computed exactly as `⌊(200e + n) / 2n⌋`, which is `Math.round` of the exact quotient; float rounding of `e / n * 100` at a half is not modelled.
- Text: white space is ASCII white space plus the no-break space. Lower-casing covers ASCII and Latin-1 capitals. Unicode case mapping and the other Unicode spaces are not modelled. A string is a sequence of characters, so the 500 cap on the comments (`maxLength`, `slice(0, 500)`) counts characters where the browser counts UTF-16 code units; they differ only for characters outside the Basic Multilingual Plane.
- Dates: dates are integer milliseconds already in local time, so `parseISO`, time zones and daylight saving are outside the model. A timestamp that fails to parse (an empty string) is not modelled. The `dd/MM` and weekday renderings of date-fns are left abstract (`LeadSummary.DateLabel.DayMonth`). One `now` is used per render, where the source calls `new Date()` several times.
- Collation: `localeCompare(..., 'pt-BR')` is an abstract rank function given as a parameter (`LeadSearch.BrowseLeads`).
- Phone rendering: `formatPhone` appears three times in the source (src/pages/Leads.tsx:71-77, src/components/LeadSearch.tsx:65-71, src/components/LeadSummary.tsx:12-18). It is defined once, as `Phone.FormatPhone`. In the same way the search term `q.trim().toLowerCase()` (src/pages/Atividade.tsx:20, src/pages/Planilha.tsx:16) and the field test `(x || "").toLowerCase().includes(term)` of those two pages are `Selectors.Term` and `Selectors.Mentions`, and the type test `i.tipo === t` (src/pages/Dashboard.tsx:19-20, src/components/InteractionForm.tsx:152) is `Selectors.OfTipo`.
- InteractionForm.FormState.Submit: when a write throws, the result is only the error; which of the writes were stored before it is not part of the result.
- Submit upload failure: when the upload inside `handleSubmit` throws, the audio status stays "uploading", as in the source; `InteractionForm.FormState.Submit` states this rather than correcting it.
- LeadSearch.BrowseLeadsSpec: in A–Z mode it states order, count and that the shown leads come from the list, not which twelve of an over-long list are shown (the twelve lowest-ranked).
- RecorderSession.Recorder.Stop: the source's `stopRecording` is not idempotent and the model keeps that. A second call after the first re-stops an inactive recorder, which fires no `stop` event, so its promise never settles (`onstopPending` stays as it was).
- PcmWorklet.PcmWorkletProcessor.Process: a partial averaging window left at the end of one `process` call is dropped, as in the source (`sum` and `count` are locals), while the accumulator carries over; the model keeps this rather than carrying the window over, so after the first call an output may average fewer samples than the ratio (`PcmWorklet.QuantumLeavesShortWindow`).
