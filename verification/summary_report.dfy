/** The summary `write_output` writes for one agent (devops.py lines 13-89),
    as the sequence of its `write` calls. Opening and appending to the
    output file is not modelled; `Document` gives the text the calls write. */
module SummaryReport {
  import opened IntentChecks
  import opened AgentChecks

  /** One `output_write.write(...)` call. */
  datatype Write =
    | Banner                        // a line of forty '$'
    | AgentLine(agent: string)      // "Results for <agent>"
    | BannerGap                     // a line of forty '$' and an empty line
    | EndIntentLine(present: bool)  // "Have end of conversation intent? True" (no newline)
    | BlankPair                     // two newlines
    | Rule                          // "--------"
    | SectionHeading(section: Section)  // a finding section's title line
    | RosterHeading                 // "ALL INTENTS " (trailing space included)
    | RuleGap                       // "--------" and an empty line
    | Entry(name: string)           // one intent name line
    | EndOfList                     // the empty line after a list
    | NoProblems                    // the success sentence (no newline)
    | Trailer                       // three newlines

  const Dollars := "$$$$$$$$$$$$$$$$$$$$$$$$$$$$$$$$$$$$$$$$"

  /** The characters one write call emits. */
  function Text(w: Write): string {
    match w
    case Banner => Dollars + "\n"
    case AgentLine(agent) => "Results for " + agent + "\n"
    case BannerGap => Dollars + "\n\n"
    case EndIntentLine(present) => "Have end of conversation intent? " + (if present then "True" else "False")
    case BlankPair => "\n\n"
    case Rule => "--------\n"
    case SectionHeading(section) => Title(section) + "\n"
    case RosterHeading => "ALL INTENTS \n"
    case RuleGap => "--------\n\n"
    case Entry(name) => name + "\n"
    case EndOfList => "\n"
    case NoProblems => "No problems found in any of the intents! Good job!"
    case Trailer => "\n\n\n"
  }

  /** The text a sequence of write calls leaves in the file. */
  function Document(ws: seq<Write>): string {
    if ws == [] then "" else Text(ws[0]) + Document(ws[1..])
  }

  /** The heading of each finding section (lines 40, 48, 56, 64 and 72). */
  function Title(s: Section): string {
    match s
    case NoWebhook => "INTENTS WITH NO WEBHOOK ENABLED"
    case NoDefaultFulfillment => "INTENTS WITH NO DEFAULT FULFILLMENT TEXT"
    case LongFulfillment => "INTENTS WITH FULFILLMENT TEXT LONGER THAN 640 CHARACTERS"
    case NoDefaultFront => "INTENTS WITH DEFAULT FULFILLMENT TEXT NOT SET TO THE FRONT OF RICH RESPONSES"
    case NoAccessibilityText => "INTENTS WITH NO ACCESSIBILITY TEXT"
  }

  /** One line per name, in order. */
  function Entries(names: seq<string>): (r: seq<Write>)
    ensures |r| == |names|
    ensures forall i :: 0 <= i < |names| ==> r[i] == Entry(names[i])
    ensures forall w :: w in r ==> w.Entry? && w.name in names
  {
    if names == [] then [] else [Entry(names[0])] + Entries(names[1..])
  }

  /** A headed list: rule, heading, rule, one line per name, empty line. */
  function ListBlock(heading: Write, names: seq<string>): seq<Write> {
    [Rule, heading, RuleGap] + Entries(names) + [EndOfList]
  }

  /** Lines 38-76: a finding section is written only when its list is non-empty. */
  function SectionBlock(b: Buckets, s: Section): seq<Write> {
    if |Bucket(b, s)| > 0 then ListBlock(SectionHeading(s), Bucket(b, s)) else []
  }

  /** Line 78: the success test looks at four lists, not at the
      accessibility list. */
  predicate NoProblemsFound(b: Buckets) {
    && |b.noDefaultFront| == 0
    && |b.noDefaultFulfillment| == 0
    && |b.noWebhook| == 0
    && |b.longFulfillment| == 0
  }

  /** Lines 29-36: banner, agent name and end-intent line. */
  function Opening(agent: string, report: Report): seq<Write> {
    [Banner, AgentLine(agent), BannerGap, EndIntentLine(report.endIntentPresent), BlankPair]
  }

  /** Lines 38-76: the finding sections, in this order. */
  function Findings(b: Buckets): seq<Write> {
    SectionBlock(b, NoWebhook)
    + SectionBlock(b, NoDefaultFulfillment)
    + SectionBlock(b, LongFulfillment)
    + SectionBlock(b, NoDefaultFront)
    + SectionBlock(b, NoAccessibilityText)
  }

  /** Lines 78-89: the success line when due, the roster, the trailer. */
  function Closing(b: Buckets): seq<Write> {
    (if NoProblemsFound(b) then [NoProblems, BlankPair] else [])
    + ListBlock(RosterHeading, b.allIntents)
    + [Trailer]
  }

  /** Lines 29-89: the write calls for one agent's report. */
  function Render(agent: string, report: Report): seq<Write> {
    Opening(agent, report) + Findings(report.buckets) + Closing(report.buckets)
  }

  /** The names of the entry lines of `ws`, in order. */
  function EntryNames(ws: seq<Write>): seq<string> {
    if ws == [] then []
    else (if ws[0].Entry? then [ws[0].name] else []) + EntryNames(ws[1..])
  }
}
