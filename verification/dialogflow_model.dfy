/** The already-parsed records of one exported Dialogflow agent, as far as the
    intent linter reads them. Every key the linter looks up that a record may
    lack is an `Option`; `None` stands for an absent key (or a JSON null). */
module DialogflowModel {
  import opened Wrappers

  /** A message's "type": an integer code (0 is a plain text response) or a
      string tag such as "simple_response" or "list_card". */
  datatype MessageType = Code(code: int) | Tag(tag: string)

  /** The "speech" of a text response: one string or a list of variants. */
  datatype Speech = Scalar(text: string) | Sequence(texts: seq<string>)

  /** The "image" object of a list-card item. */
  datatype Image = Image(accessibilityText: Option<string>)

  /** An element of a message's "items" list. List cards use `image`;
      simple responses use `textToSpeech`. */
  datatype Item = Item(image: Option<Image>, textToSpeech: Option<string>)

  /** One entry of a response group's "messages" list. */
  datatype Message = Message(
    msgType: Option<MessageType>,
    platform: Option<string>,
    speech: Option<Speech>,
    textToSpeech: Option<string>,
    items: Option<seq<Item>>)

  /** One entry of an intent's "responses" list. */
  datatype ResponseGroup = ResponseGroup(
    messages: Option<seq<Message>>,
    defaultResponsePlatforms: Option<map<string, bool>>)

  /** One intent file. */
  datatype Intent = Intent(
    name: string,
    webhookUsed: Option<bool>,
    responses: Option<seq<ResponseGroup>>)

  /** The "googleAssistant" object of agent.json. */
  datatype GoogleAssistant = GoogleAssistant(endIntentIds: Option<seq<string>>)

  /** agent.json, reduced to what the linter reads. */
  datatype Agent = Agent(googleAssistant: Option<GoogleAssistant>)

  /** A file of the agent's intents directory together with its parsed content. */
  datatype IntentFile = IntentFile(fileName: string, intent: Intent)

  /** The Python exception that aborts the run when mandatory structure is
      missing: a failed `d[key]`, `responses[0]` on an empty list, `len(None)`
      or iterating over `None`, and `None.get(...)`. */
  datatype Fault = KeyError(key: string) | IndexError | TypeError | AttributeError

  /** Python truthiness of an optional string: present and non-empty. */
  predicate TextTruthy(s: Option<string>) {
    s.Some? && |s.value| > 0
  }

  /** Python truthiness of a speech value: a non-empty string or list. */
  predicate SpeechTruthy(sp: Speech) {
    match sp
    case Scalar(t) => |t| > 0
    case Sequence(ts) => |ts| > 0
  }

  /** Python truthiness of an optional flag. */
  predicate FlagTruthy(b: Option<bool>) {
    b == Some(true)
  }
}
