/** What the per-intent checks mean, stated without their loops: reference
    predicates over an intent's first response group, and lemmas tying the
    as-written checks of `IntentChecks` to them. */
module IntentCheckProperties {
  import opened Wrappers
  import opened DialogflowModel
  import opened IntentChecks

  /** `n` copies of `name`. */
  function Repeat(name: string, n: nat): (r: seq<string>)
    ensures |r| == n
    ensures forall i :: 0 <= i < n ==> r[i] == name
  {
    if n == 0 then [] else [name] + Repeat(name, n - 1)
  }

  // ---------------------------------------------------------------------
  // Default fulfillment length (lines 165-178)
  // ---------------------------------------------------------------------

  /** A default fulfillment speech is too long: a scalar longer than the
      limit, or a list with an element at least as long as the limit. */
  predicate SpeechTooLong(sp: Speech) {
    match sp
    case Scalar(t) => |t| > LengthLimit
    case Sequence(ts) => exists t :: t in ts && |t| >= LengthLimit
  }

  /** The number of messages of `dfs` whose speech is too long. */
  function LongSpeechCount(dfs: seq<Message>): nat {
    if dfs == [] then 0
    else
      (if dfs[0].speech.Some? && SpeechTooLong(dfs[0].speech.value) then 1 else 0)
      + LongSpeechCount(dfs[1..])
  }

  /** The default-fulfillment filter keeps each qualifying message as often
      as it occurs and drops every other message. */
  lemma {:induction false} DefaultFulfillmentsCount(msgs: seq<Message>, m: Message)
    ensures multiset(DefaultFulfillments(msgs))[m] == if IsDefaultFulfillment(m) then multiset(msgs)[m] else 0
  {
    if msgs != [] {
      assert msgs == [msgs[0]] + msgs[1..];
      DefaultFulfillmentsCount(msgs[1..], m);
    }
  }

  /** The filter keeps message order: filtering a concatenation filters each
      part, in turn. */
  lemma {:induction false} DefaultFulfillmentsConcat(a: seq<Message>, b: seq<Message>)
    ensures DefaultFulfillments(a + b) == DefaultFulfillments(a) + DefaultFulfillments(b)
  {
    if a == [] {
      assert a + b == b;
    } else {
      assert (a + b)[0] == a[0] && (a + b)[1..] == a[1..] + b;
      DefaultFulfillmentsConcat(a[1..], b);
    }
  }

  lemma {:induction false} ListSpeechHitMeans(texts: seq<string>)
    ensures ListSpeechHit(texts) <==> exists t :: t in texts && |t| >= LengthLimit
  {
    if texts != [] {
      ListSpeechHitMeans(texts[1..]);
      assert forall t :: t in texts <==> t == texts[0] || t in texts[1..];
    }
  }

  /** The length check over default fulfillments `dfs` raises iff one of
      them lacks "speech", and otherwise appends the name once per too-long
      message. */
  lemma {:induction false} DefaultLengthCheckCounts(name: string, dfs: seq<Message>, long: seq<string>)
    ensures DefaultLengthCheck(name, dfs, long).Success? <==> forall d :: d in dfs ==> d.speech.Some?
    ensures DefaultLengthCheck(name, dfs, long).Success? ==>
              DefaultLengthCheck(name, dfs, long).value == long + Repeat(name, LongSpeechCount(dfs))
  {
    if dfs != [] {
      assert forall x :: x in dfs <==> x == dfs[0] || x in dfs[1..];
      match dfs[0].speech
      case None =>
      case Some(Sequence(texts)) =>
        ListSpeechHitMeans(texts);
        var long' := AppendIf(long, name, ListSpeechHit(texts));
        DefaultLengthCheckCounts(name, dfs[1..], long');
        if ListSpeechHit(texts) {
          assert long' + Repeat(name, LongSpeechCount(dfs[1..])) == long + Repeat(name, LongSpeechCount(dfs));
        }
      case Some(Scalar(text)) =>
        var long' := AppendIf(long, name, |text| > LengthLimit);
        DefaultLengthCheckCounts(name, dfs[1..], long');
        if |text| > LengthLimit {
          assert long' + Repeat(name, LongSpeechCount(dfs[1..])) == long + Repeat(name, LongSpeechCount(dfs));
        }
    }
  }

  // ---------------------------------------------------------------------
  // Rich-response filters (lines 188 and 198)
  // ---------------------------------------------------------------------

  /** A Google rich response of the given kind. */
  predicate IsRich(kind: string, m: Message) {
    m.msgType == Some(Tag(kind)) && m.platform == Some("google")
  }

  /** The filter for `kind` can read this message: it has a type, and a
      platform when the type is `kind`. */
  predicate Filterable(kind: string, m: Message) {
    m.msgType.Some? && (m.msgType.value == Tag(kind) ==> m.platform.Some?)
  }

  /** The Google messages of the given kind, in order. */
  function GoogleOfKind(kind: string, msgs: seq<Message>): (r: seq<Message>)
    ensures forall m :: m in r <==> m in msgs && IsRich(kind, m)
  {
    if msgs == [] then []
    else (if IsRich(kind, msgs[0]) then [msgs[0]] else []) + GoogleOfKind(kind, msgs[1..])
  }

  /** The filter raises iff some message cannot be read, and otherwise keeps
      exactly the Google messages of that kind, in order. */
  lemma {:induction false} RichMessagesMeans(kind: string, msgs: seq<Message>)
    ensures RichMessages(kind, msgs).Success? <==> forall m :: m in msgs ==> Filterable(kind, m)
    ensures RichMessages(kind, msgs).Success? ==> RichMessages(kind, msgs).value == GoogleOfKind(kind, msgs)
  {
    if msgs != [] {
      assert forall x :: x in msgs <==> x == msgs[0] || x in msgs[1..];
      RichMessagesMeans(kind, msgs[1..]);
      if !Filterable(kind, msgs[0]) {
        assert msgs[0] in msgs;
      }
    }
  }

  // ---------------------------------------------------------------------
  // Accessibility text (lines 188-195)
  // ---------------------------------------------------------------------

  /** An item with an image but no (or empty) accessibility text. */
  predicate LacksAccessibilityText(item: Item) {
    item.image.Some? && !TextTruthy(item.image.value.accessibilityText)
  }

  /** The scan never reaches an item without an image: every such item
      comes after one that lacks accessibility text. */
  predicate ImagesReached(items: seq<Item>) {
    forall j :: 0 <= j < |items| && items[j].image.None? ==>
      exists k :: 0 <= k < j && LacksAccessibilityText(items[k])
  }

  /** A Google list card the check can scan. */
  predicate CardWellFormed(m: Message) {
    m.items.Some? && ImagesReached(m.items.value)
  }

  /** A Google list card with an item lacking accessibility text. */
  predicate CardLacksText(m: Message) {
    m.items.Some? && exists item :: item in m.items.value && LacksAccessibilityText(item)
  }

  /** The number of messages of `cards` lacking accessibility text. */
  function LacksTextCount(cards: seq<Message>): (r: nat)
    ensures r <= |cards|
    ensures r == 0 <==> forall m :: m in cards ==> !CardLacksText(m)
  {
    if cards == [] then 0
    else (if CardLacksText(cards[0]) then 1 else 0) + LacksTextCount(cards[1..])
  }

  lemma {:induction false} MissingAccessibilityTextMeans(items: seq<Item>)
    ensures MissingAccessibilityText(items).Success? <==> ImagesReached(items)
    ensures MissingAccessibilityText(items).Success? ==>
              (MissingAccessibilityText(items).value <==> exists item :: item in items && LacksAccessibilityText(item))
  {
    if items != [] {
      assert forall x :: x in items <==> x == items[0] || x in items[1..];
      if items[0].image.None? {
        assert !ImagesReached(items) by {
          assert items[0].image.None?;
        }
      } else if !TextTruthy(items[0].image.value.accessibilityText) {
        assert items[0] in items && LacksAccessibilityText(items[0]);
        forall j | 0 <= j < |items| && items[j].image.None?
          ensures exists k :: 0 <= k < j && LacksAccessibilityText(items[k])
        {
          assert LacksAccessibilityText(items[0]);
        }
      } else {
        MissingAccessibilityTextMeans(items[1..]);
        var tail := items[1..];
        if ImagesReached(tail) {
          forall j | 0 <= j < |items| && items[j].image.None?
            ensures exists k :: 0 <= k < j && LacksAccessibilityText(items[k])
          {
            assert tail[j - 1] == items[j];
            var k :| 0 <= k < j - 1 && LacksAccessibilityText(tail[k]);
            assert items[k + 1] == tail[k];
          }
        }
        if ImagesReached(items) {
          forall j | 0 <= j < |tail| && tail[j].image.None?
            ensures exists k :: 0 <= k < j && LacksAccessibilityText(tail[k])
          {
            assert items[j + 1] == tail[j];
            var k :| 0 <= k < j + 1 && LacksAccessibilityText(items[k]);
            assert k != 0;
            assert tail[k - 1] == items[k];
          }
        }
      }
    }
  }

  /** Over Google list cards, the check raises iff some card cannot be
      scanned, and otherwise appends the name once per card lacking
      accessibility text, however many of its items lack it. */
  lemma {:induction false} AccessibilityCheckCounts(name: string, cards: seq<Message>, acc: seq<string>)
    ensures AccessibilityCheck(name, cards, acc).Success? <==> forall m :: m in cards ==> CardWellFormed(m)
    ensures AccessibilityCheck(name, cards, acc).Success? ==>
              AccessibilityCheck(name, cards, acc).value == acc + Repeat(name, LacksTextCount(cards))
  {
    if cards != [] {
      assert forall x :: x in cards <==> x == cards[0] || x in cards[1..];
      var m := cards[0];
      assert m in cards;
      if m.items.Some? {
        MissingAccessibilityTextMeans(m.items.value);
        var hit := MissingAccessibilityText(m.items.value);
        if hit.Success? {
          var acc' := AppendIf(acc, name, hit.value);
          AccessibilityCheckCounts(name, cards[1..], acc');
          if hit.value {
            assert acc' + Repeat(name, LacksTextCount(cards[1..])) == acc + Repeat(name, LacksTextCount(cards));
          }
        }
      }
    }
  }

  // ---------------------------------------------------------------------
  // Simple-response length (lines 197-215)
  // ---------------------------------------------------------------------

  /** An item whose "textToSpeech" is longer than the limit. */
  predicate ItemTooLong(item: Item) {
    item.textToSpeech.Some? && |item.textToSpeech.value| > LengthLimit
  }

  /** The scan never reaches an item without "textToSpeech": every such item
      comes after a too-long one. */
  predicate SpeechItemsReached(items: seq<Item>) {
    forall j :: 0 <= j < |items| && items[j].textToSpeech.None? ==>
      exists k :: 0 <= k < j && ItemTooLong(items[k])
  }

  /** A simple response the check can read: a non-empty top-level text, or
      items it can scan. */
  predicate SimpleResponseWellFormed(m: Message) {
    TextTruthy(m.textToSpeech) || (m.items.Some? && SpeechItemsReached(m.items.value))
  }

  /** A simple response whose text is too long: the top-level text when it
      is non-empty, otherwise some item's. */
  predicate SimpleResponseTooLong(m: Message) {
    if TextTruthy(m.textToSpeech) then |m.textToSpeech.value| > LengthLimit
    else m.items.Some? && exists item :: item in m.items.value && ItemTooLong(item)
  }

  lemma {:induction false} LongItemSpeechMeans(items: seq<Item>)
    ensures LongItemSpeech(items).Success? <==> SpeechItemsReached(items)
    ensures LongItemSpeech(items).Success? ==>
              (LongItemSpeech(items).value <==> exists item :: item in items && ItemTooLong(item))
  {
    if items != [] {
      assert forall x :: x in items <==> x == items[0] || x in items[1..];
      if items[0].textToSpeech.None? {
        assert !SpeechItemsReached(items) by {
          assert items[0].textToSpeech.None?;
        }
      } else if ItemTooLong(items[0]) {
        forall j | 0 <= j < |items| && items[j].textToSpeech.None?
          ensures exists k :: 0 <= k < j && ItemTooLong(items[k])
        {
          assert ItemTooLong(items[0]);
        }
      } else {
        LongItemSpeechMeans(items[1..]);
        var tail := items[1..];
        if SpeechItemsReached(tail) {
          forall j | 0 <= j < |items| && items[j].textToSpeech.None?
            ensures exists k :: 0 <= k < j && ItemTooLong(items[k])
          {
            assert tail[j - 1] == items[j];
            var k :| 0 <= k < j - 1 && ItemTooLong(tail[k]);
            assert items[k + 1] == tail[k];
          }
        }
        if SpeechItemsReached(items) {
          forall j | 0 <= j < |tail| && tail[j].textToSpeech.None?
            ensures exists k :: 0 <= k < j && ItemTooLong(tail[k])
          {
            assert items[j + 1] == tail[j];
            var k :| 0 <= k < j + 1 && ItemTooLong(items[k]);
            assert k != 0;
            assert tail[k - 1] == items[k];
          }
        }
      }
    }
  }

  /** Over simple responses, the check raises iff one cannot be read, and
      otherwise appends the name once, when some response is too long and
      the name is not in the list yet. */
  lemma {:induction false} SimpleResponseCheckMeans(name: string, srs: seq<Message>, long: seq<string>)
    ensures SimpleResponseCheck(name, srs, long).Success? <==> forall m :: m in srs ==> SimpleResponseWellFormed(m)
    ensures SimpleResponseCheck(name, srs, long).Success? ==>
              SimpleResponseCheck(name, srs, long).value
              == AppendIf(long, name, name !in long && exists m :: m in srs && SimpleResponseTooLong(m))
  {
    if srs != [] {
      assert forall x :: x in srs <==> x == srs[0] || x in srs[1..];
      var m := srs[0];
      assert m in srs;
      if !TextTruthy(m.textToSpeech) && m.items.Some? {
        LongItemSpeechMeans(m.items.value);
      }
      var step := SimpleResponseStep(name, m, long);
      if step.Success? {
        SimpleResponseCheckMeans(name, srs[1..], step.value);
        var rest := srs[1..];
        assert (exists x :: x in srs && SimpleResponseTooLong(x))
           <==> SimpleResponseTooLong(m) || exists x :: x in rest && SimpleResponseTooLong(x);
      }
    }
  }

  /** The simple-response check never lists a name twice: a name already
      in the list keeps its count, and one that is not ends up at most once. */
  lemma {:induction false} SimpleResponseCheckNeverDuplicates(name: string, srs: seq<Message>, long: seq<string>)
    requires SimpleResponseCheck(name, srs, long).Success?
    ensures var r := SimpleResponseCheck(name, srs, long).value;
      && long <= r
      && (name in long ==> multiset(r)[name] == multiset(long)[name])
      && (name !in long ==> multiset(r)[name] <= 1)
  {
    if srs != [] {
      var step := SimpleResponseStep(name, srs[0], long);
      SimpleResponseCheckNeverDuplicates(name, srs[1..], step.value);
      if step.value != long {
        assert step.value == long + [name] && name !in long;
        assert multiset(long)[name] == 0;
      }
    }
  }

  // ---------------------------------------------------------------------
  // Default fulfillment presence (lines 156-163)
  // ---------------------------------------------------------------------

  /** `i` is the position of the first default fulfillment message. */
  predicate FirstDefaultAt(msgs: seq<Message>, i: int) {
    && 0 <= i < |msgs|
    && IsDefaultFulfillment(msgs[i])
    && forall k :: 0 <= k < i ==> !IsDefaultFulfillment(msgs[k])
  }

  lemma FirstDefaultUnique(msgs: seq<Message>, i: int, j: int)
    requires FirstDefaultAt(msgs, i) && FirstDefaultAt(msgs, j)
    ensures i == j
  {
  }

  /** Shifting past a message that is not a default fulfillment. */
  lemma FirstDefaultShift(msgs: seq<Message>, i: int)
    requires |msgs| > 0 && !IsDefaultFulfillment(msgs[0])
    ensures FirstDefaultAt(msgs, i + 1) <==> FirstDefaultAt(msgs[1..], i)
  {
    var tail := msgs[1..];
    if FirstDefaultAt(msgs, i + 1) {
      forall k | 0 <= k < i
        ensures !IsDefaultFulfillment(tail[k])
      {
        assert tail[k] == msgs[k + 1];
      }
    }
    if FirstDefaultAt(tail, i) {
      forall k | 0 <= k < i + 1
        ensures !IsDefaultFulfillment(msgs[k])
      {
        if k > 0 {
          assert msgs[k] == tail[k - 1];
        }
      }
    }
  }

  lemma {:induction false} FirstDefaultFulfillment(msgs: seq<Message>)
    ensures |DefaultFulfillments(msgs)| > 0 <==> exists i :: FirstDefaultAt(msgs, i)
    ensures forall i :: FirstDefaultAt(msgs, i) ==> DefaultFulfillments(msgs)[0] == msgs[i]
  {
    if msgs != [] {
      var tail := msgs[1..];
      if IsDefaultFulfillment(msgs[0]) {
        assert FirstDefaultAt(msgs, 0);
        forall i | FirstDefaultAt(msgs, i)
          ensures DefaultFulfillments(msgs)[0] == msgs[i]
        {
          FirstDefaultUnique(msgs, i, 0);
        }
      } else {
        FirstDefaultFulfillment(tail);
        assert DefaultFulfillments(msgs) == DefaultFulfillments(tail);
        forall i | FirstDefaultAt(msgs, i)
          ensures FirstDefaultAt(tail, i - 1)
        {
          FirstDefaultShift(msgs, i - 1);
        }
        forall i | FirstDefaultAt(tail, i)
          ensures FirstDefaultAt(msgs, i + 1)
        {
          FirstDefaultShift(msgs, i);
        }
      }
    }
  }

  /** The intent has a default fulfillment text: its first default
      fulfillment message has a non-empty speech. */
  predicate HasDefaultText(msgs: seq<Message>) {
    exists i :: 0 <= i < |msgs| && FirstDefaultAt(msgs, i) && msgs[i].speech.Some? && SpeechTruthy(msgs[i].speech.value)
  }

  /** Lines 161-178 can read every speech they reach: the first default
      fulfillment has a "speech" key, and when it is non-empty all of them do. */
  predicate DefaultSpeechReadable(msgs: seq<Message>) {
    && (forall i :: 0 <= i < |msgs| && FirstDefaultAt(msgs, i) ==> msgs[i].speech.Some?)
    && (HasDefaultText(msgs) ==> forall m :: m in msgs && IsDefaultFulfillment(m) ==> m.speech.Some?)
  }

  /** How many times lines 165-178 append the name. */
  function LongDefaultAppends(msgs: seq<Message>): nat {
    if HasDefaultText(msgs) then LongSpeechCount(DefaultFulfillments(msgs)) else 0
  }

  lemma DefaultFulfillmentCheckMeans(name: string, msgs: seq<Message>, b: Buckets)
    ensures DefaultFulfillmentCheck(name, DefaultFulfillments(msgs), b).Success? <==> DefaultSpeechReadable(msgs)
    ensures DefaultFulfillmentCheck(name, DefaultFulfillments(msgs), b).Success? ==>
              DefaultFulfillmentCheck(name, DefaultFulfillments(msgs), b).value
              == b.(noDefaultFulfillment := AppendIf(b.noDefaultFulfillment, name, !HasDefaultText(msgs)),
                    longFulfillment := b.longFulfillment + Repeat(name, LongDefaultAppends(msgs)))
  {
    var dfs := DefaultFulfillments(msgs);
    FirstDefaultFulfillment(msgs);
    DefaultLengthCheckCounts(name, dfs, b.longFulfillment);
    if |dfs| > 0 {
      var i :| FirstDefaultAt(msgs, i);
      assert dfs[0] == msgs[i];
    }
  }

  // ---------------------------------------------------------------------
  // One intent (lines 143-215)
  // ---------------------------------------------------------------------

  /** The checks of a Google list card or simple response can read it. */
  predicate MessageWellFormed(m: Message) {
    && Filterable("list_card", m)
    && Filterable("simple_response", m)
    && (IsRich("list_card", m) ==> CardWellFormed(m))
    && (IsRich("simple_response", m) ==> SimpleResponseWellFormed(m))
  }

  /** The intent has all the structure the checks read, so no exception is
      raised for it. */
  predicate WellFormed(it: Intent) {
    && it.responses.Some? && |it.responses.value| > 0
    && it.responses.value[0].messages.Some?
    && it.responses.value[0].defaultResponsePlatforms.Some?
    && DefaultSpeechReadable(it.responses.value[0].messages.value)
    && forall m :: m in it.responses.value[0].messages.value ==> MessageWellFormed(m)
  }

  /** The messages of the first response group, the only ones checked. */
  function FirstMessages(it: Intent): seq<Message>
    requires WellFormed(it)
  {
    it.responses.value[0].messages.value
  }

  /** The result lists after checking a well-formed intent, stated as
      counts and conditions rather than loops. */
  function ExpectedBuckets(b: Buckets, it: Intent): Buckets
    requires WellFormed(it)
  {
    var name := it.name;
    var msgs := FirstMessages(it);
    var long := b.longFulfillment + Repeat(name, LongDefaultAppends(msgs));
    Buckets(
      noWebhook := AppendIf(b.noWebhook, name, !FlagTruthy(it.webhookUsed)),
      noDefaultFulfillment := AppendIf(b.noDefaultFulfillment, name, !HasDefaultText(msgs)),
      longFulfillment := AppendIf(long, name,
                           name !in long && exists m :: m in GoogleOfKind("simple_response", msgs) && SimpleResponseTooLong(m)),
      noDefaultFront := AppendIf(b.noDefaultFront, name,
                          !GoogleInFront(it.responses.value[0].defaultResponsePlatforms.value)),
      noAccessibilityText := b.noAccessibilityText + Repeat(name, LacksTextCount(GoogleOfKind("list_card", msgs))),
      allIntents := b.allIntents + [name])
  }

  /** Lines 187-215 raise iff a list card or simple response cannot be
      read; otherwise the accessibility list gains one copy of the name per
      card lacking accessibility text, and the long list gains the name once
      when it is not listed yet and some simple response is too long. */
  lemma CheckRichResponsesMeans(name: string, msgs: seq<Message>, b: Buckets)
    ensures CheckRichResponses(name, msgs, b).Success? <==> forall m :: m in msgs ==> MessageWellFormed(m)
    ensures CheckRichResponses(name, msgs, b).Success? ==>
              CheckRichResponses(name, msgs, b)
              == Success(b.(noAccessibilityText := b.noAccessibilityText + Repeat(name, LacksTextCount(GoogleOfKind("list_card", msgs))),
                            longFulfillment := AppendIf(b.longFulfillment, name,
                              name !in b.longFulfillment
                              && exists m :: m in GoogleOfKind("simple_response", msgs) && SimpleResponseTooLong(m))))
  {
    RichMessagesMeans("list_card", msgs);
    RichMessagesMeans("simple_response", msgs);
    AccessibilityCheckCounts(name, GoogleOfKind("list_card", msgs), b.noAccessibilityText);
    SimpleResponseCheckMeans(name, GoogleOfKind("simple_response", msgs), b.longFulfillment);
  }

  /** An intent is checked without an exception iff it is well formed. */
  lemma CheckIntentSucceedsIff(b: Buckets, it: Intent)
    ensures CheckIntent(b, it).Success? <==> WellFormed(it)
  {
    var name := it.name;
    var b1 := b.(allIntents := b.allIntents + [name],
                 noWebhook := AppendIf(b.noWebhook, name, !FlagTruthy(it.webhookUsed)));
    if it.responses.Some? && |it.responses.value| > 0 && it.responses.value[0].messages.Some? {
      var group := it.responses.value[0];
      var msgs := group.messages.value;
      DefaultFulfillmentCheckMeans(name, msgs, b1);
      var b2 := DefaultFulfillmentCheck(name, DefaultFulfillments(msgs), b1);
      if b2.Success? && group.defaultResponsePlatforms.Some? {
        var b3 := b2.value.(noDefaultFront := AppendIf(b2.value.noDefaultFront, name,
                                                !GoogleInFront(group.defaultResponsePlatforms.value)));
        CheckRichResponsesMeans(name, msgs, b3);
      }
    }
  }

  /** A well-formed intent leaves exactly the expected lists. */
  lemma CheckIntentMatchesReference(b: Buckets, it: Intent)
    requires WellFormed(it)
    ensures CheckIntent(b, it) == Success(ExpectedBuckets(b, it))
  {
    var name := it.name;
    var b1 := b.(allIntents := b.allIntents + [name],
                 noWebhook := AppendIf(b.noWebhook, name, !FlagTruthy(it.webhookUsed)));
    var group := it.responses.value[0];
    var msgs := group.messages.value;
    DefaultFulfillmentCheckMeans(name, msgs, b1);
    var b2 := DefaultFulfillmentCheck(name, DefaultFulfillments(msgs), b1).value;
    var b3 := b2.(noDefaultFront := AppendIf(b2.noDefaultFront, name, !GoogleInFront(group.defaultResponsePlatforms.value)));
    CheckRichResponsesMeans(name, msgs, b3);
  }

  /** Lines 145 and 149-151: the name joins the roster, and joins the
      no-webhook list exactly once when "webhookUsed" is absent or false. */
  lemma WebhookFlag(b: Buckets, it: Intent)
    requires CheckIntent(b, it).Success?
    ensures CheckIntent(b, it).value.allIntents == b.allIntents + [it.name]
    ensures it.webhookUsed != Some(true) ==> CheckIntent(b, it).value.noWebhook == b.noWebhook + [it.name]
    ensures it.webhookUsed == Some(true) ==> CheckIntent(b, it).value.noWebhook == b.noWebhook
  {
    CheckIntentSucceedsIff(b, it);
    CheckIntentMatchesReference(b, it);
  }

  /** Lines 182-185: the name joins the list of intents whose default
      response is not in front exactly once when the first response group's
      "google" flag is absent or false. */
  lemma DefaultFrontFlag(b: Buckets, it: Intent)
    requires CheckIntent(b, it).Success?
    ensures var p := it.responses.value[0].defaultResponsePlatforms.value;
      && ("google" !in p || !p["google"] ==> CheckIntent(b, it).value.noDefaultFront == b.noDefaultFront + [it.name])
      && ("google" in p && p["google"] ==> CheckIntent(b, it).value.noDefaultFront == b.noDefaultFront)
  {
    CheckIntentSucceedsIff(b, it);
    CheckIntentMatchesReference(b, it);
  }

  /** Lines 156-163: the name joins the no-default-fulfillment list exactly
      once when there is no default fulfillment message or the first one has
      an empty speech; then no default fulfillment is length-checked, and the
      long list can only gain the name once, through a simple response. */
  lemma NoDefaultFulfillmentFlag(b: Buckets, it: Intent)
    requires CheckIntent(b, it).Success?
    ensures WellFormed(it)
    ensures var msgs := FirstMessages(it);
            var r := CheckIntent(b, it).value;
      && (!HasDefaultText(msgs) ==> r.noDefaultFulfillment == b.noDefaultFulfillment + [it.name])
      && (HasDefaultText(msgs) ==> r.noDefaultFulfillment == b.noDefaultFulfillment)
      && (!HasDefaultText(msgs) ==>
            r.longFulfillment == b.longFulfillment
            || (it.name !in b.longFulfillment && r.longFulfillment == b.longFulfillment + [it.name]))
      && (!HasDefaultText(msgs) && r.longFulfillment != b.longFulfillment ==>
            exists m :: m in GoogleOfKind("simple_response", msgs) && SimpleResponseTooLong(m))
  {
    CheckIntentSucceedsIff(b, it);
    CheckIntentMatchesReference(b, it);
  }

  /** Lines 165-178 and 198-215: the long list gains only the intent's
      name: once per too-long default fulfillment message (duplicates
      included), and otherwise at most once for a too-long simple response,
      only when the name is not listed yet. */
  lemma LongFulfillmentAppends(b: Buckets, it: Intent)
    requires CheckIntent(b, it).Success?
    ensures WellFormed(it)
    ensures var r := CheckIntent(b, it).value.longFulfillment;
            var d := LongDefaultAppends(FirstMessages(it));
            var sr := exists m :: m in GoogleOfKind("simple_response", FirstMessages(it)) && SimpleResponseTooLong(m);
      && b.longFulfillment <= r
      && (forall i :: |b.longFulfillment| <= i < |r| ==> r[i] == it.name)
      && (d > 0 ==> |r| == |b.longFulfillment| + d)
      && (d == 0 ==> |r| == |b.longFulfillment| + (if it.name !in b.longFulfillment && sr then 1 else 0))
  {
    CheckIntentSucceedsIff(b, it);
    CheckIntentMatchesReference(b, it);
    var msgs := FirstMessages(it);
    var long := b.longFulfillment + Repeat(it.name, LongDefaultAppends(msgs));
    if LongDefaultAppends(msgs) > 0 {
      assert long[|b.longFulfillment|] == it.name;
    }
  }

  /** Lines 188-195: the accessibility list gains the name once per Google
      list card lacking accessibility text, so at most once per card; other
      messages never contribute. */
  lemma AccessibilityAppends(b: Buckets, it: Intent)
    requires CheckIntent(b, it).Success?
    ensures WellFormed(it)
    ensures var r := CheckIntent(b, it).value.noAccessibilityText;
            var cards := GoogleOfKind("list_card", FirstMessages(it));
      && r == b.noAccessibilityText + Repeat(it.name, LacksTextCount(cards))
      && |r| - |b.noAccessibilityText| <= |cards|
      && (r == b.noAccessibilityText <==> forall m :: m in cards ==> !CardLacksText(m))
  {
    CheckIntentSucceedsIff(b, it);
    CheckIntentMatchesReference(b, it);
  }

  /** Line 154: only the first response group is read, so replacing the
      later groups changes neither the outcome nor any list. */
  lemma OnlyFirstResponseGroup(b: Buckets, it: Intent, later: seq<ResponseGroup>)
    requires it.responses.Some? && |it.responses.value| > 0
    ensures CheckIntent(b, it) == CheckIntent(b, it.(responses := Some([it.responses.value[0]] + later)))
  {
    var it' := it.(responses := Some([it.responses.value[0]] + later));
    assert FirstResponseGroup(it') == FirstResponseGroup(it);
  }

  /** Lines 202-209: a simple response's items are read only when its
      top-level "textToSpeech" is missing or empty. */
  lemma ItemsReadOnlyWithoutText(name: string, sr: Message, items: Option<seq<Item>>, long: seq<string>)
    requires TextTruthy(sr.textToSpeech)
    ensures SimpleResponseStep(name, sr, long) == SimpleResponseStep(name, sr.(items := items), long)
    ensures SimpleResponseStep(name, sr, long).Success?
  {
  }

  /** Lines 169 and 175: a list speech element of exactly 640 characters is
      too long, a scalar speech of 640 is not, and one of 641 is. */
  lemma DefaultLengthBoundaries(name: string, m: Message, t: string, u: string, long: seq<string>)
    requires |t| == LengthLimit && |u| == LengthLimit + 1
    ensures DefaultLengthCheck(name, [m.(speech := Some(Sequence([t])))], long) == Success(long + [name])
    ensures DefaultLengthCheck(name, [m.(speech := Some(Scalar(t)))], long) == Success(long)
    ensures DefaultLengthCheck(name, [m.(speech := Some(Scalar(u)))], long) == Success(long + [name])
  {
    var df := m.(speech := Some(Sequence([t])));
    assert [df][1..] == [];
    assert ListSpeechHit([t]);
  }

  /** Lines 203 and 210: a simple-response text of exactly 640 characters
      passes, and one of 641 flags an intent not yet listed. */
  lemma SimpleResponseBoundaries(name: string, m: Message, t: string, u: string, long: seq<string>)
    requires |t| == LengthLimit && |u| == LengthLimit + 1 && name !in long
    ensures SimpleResponseStep(name, m.(textToSpeech := Some(t)), long) == Success(long)
    ensures SimpleResponseStep(name, m.(textToSpeech := Some(u)), long) == Success(long + [name])
    ensures SimpleResponseStep(name, m.(textToSpeech := None, items := Some([Item(None, Some(t))])), long) == Success(long)
    ensures SimpleResponseStep(name, m.(textToSpeech := None, items := Some([Item(None, Some(u))])), long) == Success(long + [name])
  {
    var items := [Item(None, Some(t))];
    assert items[1..] == [];
    assert LongItemSpeech(items) == Success(false);
  }

  /** Lines 165-178: two too-long default fulfillment messages list the
      intent twice; the long list is not deduplicated. */
  lemma LongFulfillmentDuplicates(name: string, t: string)
    requires |t| > LengthLimit
    ensures var df := Message(Some(Code(0)), None, Some(Scalar(t)), None, None);
            var it := Intent(name, Some(true), Some([ResponseGroup(Some([df, df]), Some(map["google" := true]))]));
            CheckIntent(EmptyBuckets, it) == Success(Buckets([], [], [name, name], [], [], [name]))
  {
    var df := Message(Some(Code(0)), None, Some(Scalar(t)), None, None);
    var it := Intent(name, Some(true), Some([ResponseGroup(Some([df, df]), Some(map["google" := true]))]));
    var one := [df];
    var two := [df, df];
    assert two[1..] == one && one[1..] == [];
    assert DefaultFulfillments(one) == one;
    assert DefaultFulfillments(two) == two;
    assert RichMessages("list_card", one) == Success([]);
    assert RichMessages("list_card", two) == Success([]);
    assert RichMessages("simple_response", one) == Success([]);
    assert RichMessages("simple_response", two) == Success([]);
    assert AppendIf([name], name, |t| > LengthLimit) == [name, name];
    assert AppendIf([], name, |t| > LengthLimit) == [name];
    assert DefaultLengthCheck(name, one[1..], [name, name]) == Success([name, name]);
    assert DefaultLengthCheck(name, one, [name]) == Success([name, name]);
    assert DefaultLengthCheck(name, two, []) == Success([name, name]);
  }
}
