# DialogFlowChecker intent linter, modelled in Dafny

DialogFlowChecker audits exported Dialogflow agents. For each agent, `devops.py`
reads `agent.json` and every intent file. It appends intent names to five
finding lists: no webhook, no default fulfillment text, fulfillment text longer
than 640 characters, default response not in front of the Google rich responses,
and list-card items without accessibility text. It also keeps a roster of all
intents. Then `write_output` prints a summary for the agent.

This project models that engine as pure functions over already-parsed records:

- `dialogflow_model.dfy` (`DialogflowModel`): intents, response groups and
  messages. Every key the code may find missing is an `Option`. It also defines
  the Python exceptions (`Fault`) that abort a run.
- `intent_checks.dfy` (`IntentChecks`): the per-intent checks as written. They
  keep the source's order, its `break`s, its `not in` guard and its exceptions.
  `CheckIntent` returns the updated lists or the first exception raised.
- `intent_check_properties.dfy` (`IntentCheckProperties`): a loop-free reference
  for the same checks. This includes `WellFormed`, the counts of offending
  messages, and `ExpectedBuckets`. The lemmas tie the as-written checks to this
  reference.
- `agent_checks.dfy` / `agent_check_properties.dfy`: the end-intent check and the
  fold over an agent's intent files, which skips the training-phrase files.
- `summary_report.dfy` / `summary_report_properties.dfy`: `write_output` as the
  sequence of its `write` calls (`Write` values; `Document` gives their text).
- `wrappers.dfy`: `Option` and a failure-compatible `Result`.

The code has some sharp edges, and the model keeps all of them:

- A speech list element is too long at `>= 640` characters. A scalar speech is
  too long only at `> 640`. A simple response is too long at `> 640`.
- Only `responses[0]` is read.
- The default-fulfillment length check appends the name once per offending
  message, so a name can appear more than once in that list. The accessibility
  check does the same.
- Only the simple-response check skips names that are already listed.
- The "No problems found" line ignores the accessibility list.
- A missing mandatory key raises, and the whole run stops.

## Model

| member | source | states |
|---|---|---|
| IntentChecks.DefaultFulfillments | devops.py:156-159 | the kept messages are exactly those of type 0 whose platform is neither "facebook" nor "google" (a missing platform qualifies), never more than the input |
| IntentCheckProperties.DefaultFulfillmentsCount | devops.py:156-159 | `list(filter(...))` keeps every default fulfillment as many times as it occurs in the group and drops every other message |
| IntentCheckProperties.DefaultFulfillmentsConcat | devops.py:156-159 | the filter keeps message order: filtering two runs of messages one after the other gives the two filtered runs, in turn |
| IntentCheckProperties.ListSpeechHitMeans | devops.py:168-173 | the inner loop with `break` hits iff some list element has at least 640 characters |
| IntentCheckProperties.DefaultLengthCheckCounts | devops.py:165-178 | the length loop raises iff some default fulfillment lacks "speech"; otherwise it appends the name exactly once per too-long message (list element >= 640, scalar > 640) |
| IntentCheckProperties.RichMessagesMeans | devops.py:188-198 | the list-card and simple-response filters raise iff a message has no "type", or has the matching type and no "platform"; otherwise they keep exactly the Google messages of that type, in order |
| IntentCheckProperties.MissingAccessibilityTextMeans | devops.py:191-195 | the item scan raises iff it reaches an item without an image before any item lacking accessibility text; otherwise it hits iff some item has an image without accessibility text |
| IntentCheckProperties.AccessibilityCheckCounts | devops.py:189-195 | over the Google list cards, the check raises iff a card lacks "items" or cannot be scanned; otherwise it appends the name exactly once per card lacking accessibility text |
| IntentCheckProperties.LongItemSpeechMeans | devops.py:209-215 | the item scan raises iff it reaches an item without "textToSpeech" before a too-long one; otherwise it hits iff some item's text exceeds 640 characters |
| IntentCheckProperties.SimpleResponseCheckMeans | devops.py:200-215 | over simple responses, the check raises iff one has an empty top-level text and no readable items; otherwise it appends the name once iff it is not listed yet and some response is too long |
| IntentCheckProperties.SimpleResponseCheckNeverDuplicates | devops.py:200-215 | the simple-response check only extends the list; a name already present keeps its count, and a name not present ends up at most once |
| IntentCheckProperties.FirstDefaultFulfillment | devops.py:156-161 | `default_fulfillment[0]` exists iff some message is a default fulfillment, and it is the first such message of the group |
| IntentCheckProperties.DefaultFulfillmentCheckMeans | devops.py:161-178 | the default-fulfillment step raises iff the speech it reads is missing; otherwise the name joins the no-default list iff the first default fulfillment is missing or has empty speech, and the long list gains one copy per too-long message only when it is not |
| IntentCheckProperties.CheckRichResponsesMeans | devops.py:187-215 | the rich-response checks raise iff some message is not well formed; otherwise the accessibility list gains one copy per Google list card lacking text, and the long list gains the name once iff it is not listed and a Google simple response is too long |
| IntentCheckProperties.CheckIntentSucceedsIff | devops.py:143-215 | checking an intent raises iff the intent is not `WellFormed`: no first response group, no "messages", a default fulfillment without readable speech, no "defaultResponsePlatforms", or a malformed message |
| IntentCheckProperties.CheckIntentMatchesReference | devops.py:143-215 | for a well-formed intent, the lists after the check equal the loop-free `ExpectedBuckets` |
| IntentCheckProperties.WebhookFlag | devops.py:144-151 | the roster gains the name; the no-webhook list gains it exactly once iff "webhookUsed" is absent or false, and is unchanged otherwise |
| IntentCheckProperties.DefaultFrontFlag | devops.py:182-185 | the not-in-front list gains the name exactly once iff `defaultResponsePlatforms["google"]` is absent or false, and is unchanged otherwise |
| IntentCheckProperties.NoDefaultFulfillmentFlag | devops.py:156-163 | the no-default list gains the name exactly once iff the first default fulfillment is missing or has empty speech; in that case the long list gains at most one copy, and only through a simple response |
| IntentCheckProperties.LongFulfillmentAppends | devops.py:165-215 | the long list only gains the intent's name: one copy per too-long default fulfillment when there are any; otherwise one copy iff the name is not yet listed and a simple response is too long |
| IntentCheckProperties.AccessibilityAppends | devops.py:187-195 | the accessibility list gains the name once per Google list card lacking accessibility text: at most once per card, never for other messages, and not at all iff no card lacks it |
| IntentCheckProperties.OnlyFirstResponseGroup | devops.py:154-155 | replacing every response group after the first changes neither the outcome nor any list |
| IntentCheckProperties.ItemsReadOnlyWithoutText | devops.py:202-209 | a simple response with a non-empty top-level text never raises, and its items do not affect the result |
| IntentCheckProperties.DefaultLengthBoundaries | devops.py:165-178 | a list speech element of exactly 640 characters flags the intent, a scalar speech of 640 does not, and a scalar of 641 does |
| IntentCheckProperties.SimpleResponseBoundaries | devops.py:200-215 | a simple-response text of 640 characters, top-level or in an item, passes; one of 641 flags an intent that is not listed yet |
| IntentCheckProperties.LongFulfillmentDuplicates | devops.py:165-178 | an intent with two too-long default fulfillment messages appears twice in the long list |
| AgentChecks.Contains | devops.py:135 | Python's substring test: true iff the pattern occurs at some position of the file name |
| AgentCheckProperties.IntentAppends | devops.py:143-195 | when checking an intent succeeds, every list other than the long one gains exactly `Appends` copies of its name at the end and is otherwise unchanged |
| AgentCheckProperties.IntentAppendsOnlyItsName | devops.py:143-215 | checking one intent adds no name but its own to any list, and adds it to the roster exactly once |
| AgentCheckProperties.IntentFilesCount | devops.py:133-136 | the files read are the listed files that are not training-phrase files, each as often as it is listed |
| AgentCheckProperties.IntentFilesConcat | devops.py:133-136 | skipping training-phrase files keeps listing order: the files read from two runs of listings are those of each run, in turn |
| AgentCheckProperties.CheckFilesSucceedsIff | devops.py:133-145 | the run over the intent files aborts iff some file it reads (one that is not a training-phrase file) holds an intent that is not well formed |
| AgentCheckProperties.CheckFilesRoster | devops.py:133-145 | the roster gains the name of every file read, in file order, whatever the checks find |
| AgentCheckProperties.CheckFilesListings | devops.py:133-215 | each list other than the long one gains, in file order, every read intent's name as many times as that intent is appended |
| AgentCheckProperties.ListedNamesOnRoster | devops.py:143-145 | every name in any finding list is on the roster |
| AgentCheckProperties.TrainingPhrasesIgnored | devops.py:133-136 | files whose name contains "usersays_en.json" are never read: removing them changes nothing |
| AgentCheckProperties.CheckAgentMeaning | devops.py:107-145 | an agent run succeeds iff agent.json has its end-intent list and every intent read is well formed; the end-intent flag is false iff that list is empty; the roster has one name per intent read, in order |
| AgentCheckProperties.EndIntentIndependentOfIntents | devops.py:121-126 | the end-intent flag is the same whatever intent files the agent has |
| SummaryReportProperties.EntriesRoundTrip | devops.py:42-43 | reading back the entry lines printed for a list gives that list |
| SummaryReportProperties.ListBlockMembers | devops.py:38-87 | a headed list contains its heading, and apart from entry lines only the rules, the heading and the empty line |
| SummaryReportProperties.ListBlockNames | devops.py:38-87 | the entry lines of a headed list are exactly its names, in order |
| SummaryReportProperties.SectionBlockHeading | devops.py:38-76 | a section block carries a section's heading iff it is that section's block and the list is non-empty; it never carries the success line or the roster heading |
| SummaryReportProperties.SectionBlockNames | devops.py:38-76 | the entry lines of a section block are exactly its list, duplicates kept |
| SummaryReportProperties.FindingsHeadings | devops.py:38-76 | the finding sections show a section's heading iff its list is non-empty, and show neither the success line nor the roster heading |
| SummaryReportProperties.ClosingHeadings | devops.py:78-89 | after the finding sections come the roster heading, no section heading, and the success line iff the success test holds |
| SummaryReportProperties.SectionShownIff | devops.py:38-76 | a finding section's heading is written iff its list is non-empty |
| SummaryReportProperties.NoProblemsIff | devops.py:78-80 | the success line is written iff the no-webhook, no-default, long and not-in-front lists are empty, whatever the accessibility list holds |
| SummaryReportProperties.FrameAlwaysShown | devops.py:29-89 | every summary starts with the banner, gives the agent and the end-intent flag, shows the "ALL INTENTS" heading and ends with the trailer |
| SummaryReportProperties.FindingsNames | devops.py:38-76 | the entry lines of the finding sections are the five lists, in section order, with duplicates kept |
| SummaryReportProperties.ClosingNames | devops.py:78-89 | the entry lines after the finding sections are exactly the roster |
| SummaryReportProperties.RenderListsEveryName | devops.py:38-87 | the entry lines of the whole summary are the five finding lists in section order followed by the roster |
| SummaryReportProperties.DocumentConcat | devops.py:29-89 | the text of consecutive write calls is the text of the first calls followed by that of the rest |
| SummaryReportProperties.OpeningText | devops.py:30-36 | the summary text starts with the banner, the agent line, the banner with an empty line, the end-intent flag and two newlines, in this order |
| SummaryReportProperties.EntriesText | devops.py:42-43 | printing a list writes nothing for an empty list, and one more name adds exactly that name and a newline at the end |
| SummaryReportProperties.ListBlockText | devops.py:39-44 | a headed list prints as the rule line, the heading line, the rule with an empty line, the names, and an empty line |
| SummaryReportProperties.WrittenText | devops.py:30-83 | the banner is forty '$', the end-intent flag prints as `True` or `False`, the rules are eight '-', and the roster heading keeps its trailing space |

## Left out

- `download_agents.py` is not part of this model. It is the Dialogflow API client, credential set-up and zip extraction: network and file I/O.
- Directory listing, `isfile`, file reading and `json.loads` (devops.py:101-143) are left out. The model takes parsed records and the file list in listing order.
- Writing the output file and the switch of `file_mode` from "w+" to "a" are left out. The model gives the write calls for one agent and their text (`Document`), not the appending over several agents.
- The loop over the agent directories is left out. The model covers one agent. In the code, an exception for one agent also ends the run for every agent after it.
- The `print` diagnostics and the `__name__ == '__main__'` guard are left out. When the file is imported, the guard only prints and writes no summary.
- JSON values of unexpected types are left out. This covers a non-boolean "webhookUsed", a non-string speech element, a "type" given as `false` or `0.0` (which Python counts as equal to 0), and a missing intent "name" (`None` on the roster). The model fixes the types a Dialogflow export uses, and a JSON null is treated like an absent key.
- Lengths are counted in Unicode code points (`|s|` on Dafny strings), as Python's `len` does. No encoding is modelled.
- CheckFilesListings: does not cover the long-fulfillment list, because what an intent adds to it depends on the names already in it. `LongFulfillmentAppends` covers one intent, and `ListedNamesOnRoster` shows the list holds only roster names.
- IntentAppends: states the exact count for four lists. For the long list it only says that nothing but the intent's name is appended, for the same reason.
