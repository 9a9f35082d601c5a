/** The per-intent checks of devops.py (lines 143-215), written as the code
    runs them: the same order, the same `break`s, the same exceptions. Each
    check appends the intent's name to one of the result lists; a missing
    mandatory key stops everything with the Python exception it raises. */
module IntentChecks {
  import opened Wrappers
  import opened DialogflowModel

  /** The character limit the length checks compare against. */
  const LengthLimit: nat := 640

  /** The result lists of one agent, in append order. They are Python lists:
      a name may occur more than once. */
  datatype Buckets = Buckets(
    noWebhook: seq<string>,
    noDefaultFulfillment: seq<string>,
    longFulfillment: seq<string>,
    noDefaultFront: seq<string>,
    noAccessibilityText: seq<string>,
    allIntents: seq<string>)

  const EmptyBuckets := Buckets([], [], [], [], [], [])

  /** The five finding lists, in the order the summary prints them. */
  datatype Section = NoWebhook | NoDefaultFulfillment | LongFulfillment | NoDefaultFront | NoAccessibilityText

  function Bucket(b: Buckets, s: Section): seq<string> {
    match s
    case NoWebhook => b.noWebhook
    case NoDefaultFulfillment => b.noDefaultFulfillment
    case LongFulfillment => b.longFulfillment
    case NoDefaultFront => b.noDefaultFront
    case NoAccessibilityText => b.noAccessibilityText
  }

  /** `s` with `name` appended when `flag` holds. */
  function AppendIf(s: seq<string>, name: string, flag: bool): seq<string> {
    if flag then s + [name] else s
  }

  /** The filter of lines 156-159: type 0 and a platform other than
      "facebook" or "google" (a missing platform qualifies). */
  predicate IsDefaultFulfillment(m: Message) {
    && m.msgType == Some(Code(0))
    && m.platform != Some("facebook")
    && m.platform != Some("google")
  }

  function DefaultFulfillments(msgs: seq<Message>): (r: seq<Message>)
    ensures |r| <= |msgs|
    ensures forall m :: m in r <==> m in msgs && IsDefaultFulfillment(m)
  {
    if msgs == [] then []
    else (if IsDefaultFulfillment(msgs[0]) then [msgs[0]] else []) + DefaultFulfillments(msgs[1..])
  }

  /** The filters of lines 188 and 198: `d["type"] == kind and d["platform"] == "google"`.
      `d["type"]` raises for every message without a type; `d["platform"]`
      is evaluated only when the type matches. */
  function RichMessages(kind: string, msgs: seq<Message>): Result<seq<Message>, Fault> {
    if msgs == [] then Success([])
    else
      var m := msgs[0];
      if m.msgType.None? then Failure(KeyError("type"))
      else if m.msgType.value != Tag(kind) then RichMessages(kind, msgs[1..])
      else if m.platform.None? then Failure(KeyError("platform"))
      else
        var rest :- RichMessages(kind, msgs[1..]);
        Success(if m.platform.value == "google" then [m] + rest else rest)
  }

  /** Lines 168-173: does some element of a list speech reach the limit?
      The loop breaks at the first such element. */
  function ListSpeechHit(texts: seq<string>): bool {
    if texts == [] then false
    else if |texts[0]| >= LengthLimit then true
    else ListSpeechHit(texts[1..])
  }

  /** Lines 165-178: each default fulfillment message appends the name once
      when it is too long. A message without "speech" makes `len(None)` raise. */
  function DefaultLengthCheck(name: string, dfs: seq<Message>, long: seq<string>): Result<seq<string>, Fault> {
    if dfs == [] then Success(long)
    else
      match dfs[0].speech
      case None => Failure(TypeError)
      case Some(Sequence(texts)) => DefaultLengthCheck(name, dfs[1..], AppendIf(long, name, ListSpeechHit(texts)))
      case Some(Scalar(text)) => DefaultLengthCheck(name, dfs[1..], AppendIf(long, name, |text| > LengthLimit))
  }

  /** Lines 161-178: no default fulfillment, or an empty first one, is
      recorded; otherwise every default fulfillment is length-checked. */
  function DefaultFulfillmentCheck(name: string, dfs: seq<Message>, b: Buckets): Result<Buckets, Fault> {
    if |dfs| == 0 then Success(b.(noDefaultFulfillment := b.noDefaultFulfillment + [name]))
    else if dfs[0].speech.None? then Failure(KeyError("speech"))
    else if !SpeechTruthy(dfs[0].speech.value) then Success(b.(noDefaultFulfillment := b.noDefaultFulfillment + [name]))
    else
      var long :- DefaultLengthCheck(name, dfs, b.longFulfillment);
      Success(b.(longFulfillment := long))
  }

  /** Lines 191-195: the first item without accessibility text ends the scan
      with a hit; an item reached without an "image" makes `None.get` raise. */
  function MissingAccessibilityText(items: seq<Item>): Result<bool, Fault> {
    if items == [] then Success(false)
    else if items[0].image.None? then Failure(AttributeError)
    else if !TextTruthy(items[0].image.value.accessibilityText) then Success(true)
    else MissingAccessibilityText(items[1..])
  }

  /** Lines 189-195: each list card appends the name at most once. */
  function AccessibilityCheck(name: string, cards: seq<Message>, acc: seq<string>): Result<seq<string>, Fault> {
    if cards == [] then Success(acc)
    else if cards[0].items.None? then Failure(KeyError("items"))
    else
      var hit :- MissingAccessibilityText(cards[0].items.value);
      AccessibilityCheck(name, cards[1..], AppendIf(acc, name, hit))
  }

  /** Lines 209-215: the first item whose "textToSpeech" exceeds the limit
      ends the scan with a hit; an item reached without one raises. */
  function LongItemSpeech(items: seq<Item>): Result<bool, Fault> {
    if items == [] then Success(false)
    else if items[0].textToSpeech.None? then Failure(KeyError("textToSpeech"))
    else if |items[0].textToSpeech.value| > LengthLimit then Success(true)
    else LongItemSpeech(items[1..])
  }

  /** Lines 202-215 for one simple response: the top-level "textToSpeech"
      when it is non-empty, the items otherwise. The name is appended only
      when it is not already in the list. */
  function SimpleResponseStep(name: string, sr: Message, long: seq<string>): Result<seq<string>, Fault> {
    if TextTruthy(sr.textToSpeech) then
      Success(AppendIf(long, name, |sr.textToSpeech.value| > LengthLimit && name !in long))
    else if sr.items.None? then Failure(TypeError)
    else
      var hit :- LongItemSpeech(sr.items.value);
      Success(AppendIf(long, name, hit && name !in long))
  }

  /** Lines 200-215: every simple response, in order. */
  function SimpleResponseCheck(name: string, srs: seq<Message>, long: seq<string>): Result<seq<string>, Fault> {
    if srs == [] then Success(long)
    else
      var long' :- SimpleResponseStep(name, srs[0], long);
      SimpleResponseCheck(name, srs[1..], long')
  }

  /** Line 154: `intent_d["responses"][0]`. */
  function FirstResponseGroup(it: Intent): Result<ResponseGroup, Fault> {
    match it.responses
    case None => Failure(KeyError("responses"))
    case Some(groups) => if |groups| == 0 then Failure(IndexError) else Success(groups[0])
  }

  /** Line 155: `responses["messages"]`. */
  function Messages(g: ResponseGroup): Result<seq<Message>, Fault> {
    match g.messages
    case None => Failure(KeyError("messages"))
    case Some(msgs) => Success(msgs)
  }

  /** Line 182: `responses["defaultResponsePlatforms"]`. */
  function DefaultResponsePlatforms(g: ResponseGroup): Result<map<string, bool>, Fault> {
    match g.defaultResponsePlatforms
    case None => Failure(KeyError("defaultResponsePlatforms"))
    case Some(p) => Success(p)
  }

  /** Line 183: `default_response_platform.get("google")` is truthy. */
  predicate GoogleInFront(platforms: map<string, bool>) {
    "google" in platforms && platforms["google"]
  }

  /** Lines 187-215: the list-card check, then the simple-response check. */
  function CheckRichResponses(name: string, msgs: seq<Message>, b: Buckets): Result<Buckets, Fault> {
    var cards :- RichMessages("list_card", msgs);
    var acc :- AccessibilityCheck(name, cards, b.noAccessibilityText);
    var srs :- RichMessages("simple_response", msgs);
    var long :- SimpleResponseCheck(name, srs, b.longFulfillment);
    Success(b.(noAccessibilityText := acc, longFulfillment := long))
  }

  /** Lines 143-215: the checks of one intent, in source order. */
  function CheckIntent(b: Buckets, it: Intent): Result<Buckets, Fault> {
    var name := it.name;
    var b1 := b.(allIntents := b.allIntents + [name],
                 noWebhook := AppendIf(b.noWebhook, name, !FlagTruthy(it.webhookUsed)));
    var group :- FirstResponseGroup(it);
    var msgs :- Messages(group);
    var b2 :- DefaultFulfillmentCheck(name, DefaultFulfillments(msgs), b1);
    var platforms :- DefaultResponsePlatforms(group);
    var b3 := b2.(noDefaultFront := AppendIf(b2.noDefaultFront, name, !GoogleInFront(platforms)));
    CheckRichResponses(name, msgs, b3)
  }
}
