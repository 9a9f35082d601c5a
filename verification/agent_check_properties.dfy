/** What a run over one agent's intent files produces, stated per file:
    which names each list holds, in which order, and when the run aborts. */
module AgentCheckProperties {
  import opened Wrappers
  import opened DialogflowModel
  import opened IntentChecks
  import opened IntentCheckProperties
  import opened AgentChecks

  /** The files the run reads: all but the training phrases, in order. */
  function IntentFiles(files: seq<IntentFile>): (r: seq<IntentFile>)
    ensures |r| <= |files|
    ensures forall f :: f in r <==> f in files && !IsTrainingPhrases(f)
  {
    if files == [] then []
    else (if IsTrainingPhrases(files[0]) then [] else [files[0]]) + IntentFiles(files[1..])
  }

  /** Skipping training-phrase files keeps every other file as often as it
      occurs. */
  lemma {:induction false} IntentFilesCount(files: seq<IntentFile>, f: IntentFile)
    ensures multiset(IntentFiles(files))[f] == if IsTrainingPhrases(f) then 0 else multiset(files)[f]
  {
    if files != [] {
      assert files == [files[0]] + files[1..];
      IntentFilesCount(files[1..], f);
    }
  }

  /** Skipping training-phrase files keeps the listing order: the files read
      from a concatenation are those read from each part, in turn. */
  lemma {:induction false} IntentFilesConcat(a: seq<IntentFile>, b: seq<IntentFile>)
    ensures IntentFiles(a + b) == IntentFiles(a) + IntentFiles(b)
  {
    if a == [] {
      assert a + b == b;
    } else {
      assert (a + b)[0] == a[0] && (a + b)[1..] == a[1..] + b;
      IntentFilesConcat(a[1..], b);
    }
  }

  /** The intent names of `files`, in order. */
  function Names(files: seq<IntentFile>): (r: seq<string>)
    ensures |r| == |files|
    ensures forall i :: 0 <= i < |files| ==> r[i] == files[i].intent.name
  {
    if files == [] then [] else [files[0].intent.name] + Names(files[1..])
  }

  /** How many times checking a well-formed intent appends its name to a
      list. The long list is not covered: what it gains depends on what it
      already holds (line 206). */
  function Appends(s: Section, it: Intent): nat {
    match s
    case NoWebhook => if !FlagTruthy(it.webhookUsed) then 1 else 0
    case NoDefaultFulfillment =>
      if WellFormed(it) && !HasDefaultText(FirstMessages(it)) then 1 else 0
    case NoDefaultFront =>
      if WellFormed(it) && !GoogleInFront(it.responses.value[0].defaultResponsePlatforms.value) then 1 else 0
    case NoAccessibilityText =>
      if WellFormed(it) then LacksTextCount(GoogleOfKind("list_card", FirstMessages(it))) else 0
    case LongFulfillment => 0
  }

  /** The names a list gains from `files`: each read intent's name, as many
      times as it is appended, in file order. */
  function Listing(files: seq<IntentFile>, s: Section): seq<string> {
    if files == [] then []
    else
      (if IsTrainingPhrases(files[0]) then [] else Repeat(files[0].intent.name, Appends(s, files[0].intent)))
      + Listing(files[1..], s)
  }

  /** Checking one intent appends its name to a list other than the long
      one exactly `Appends` times, and nothing else. */
  lemma IntentAppends(b: Buckets, it: Intent, s: Section)
    requires CheckIntent(b, it).Success?
    requires s != LongFulfillment
    ensures Bucket(CheckIntent(b, it).value, s) == Bucket(b, s) + Repeat(it.name, Appends(s, it))
  {
    CheckIntentSucceedsIff(b, it);
    CheckIntentMatchesReference(b, it);
  }

  /** Checking one intent puts its name on the roster and appends nothing
      but its name to any list. */
  lemma IntentAppendsOnlyItsName(b: Buckets, it: Intent)
    requires CheckIntent(b, it).Success?
    ensures forall s, x :: x in Bucket(CheckIntent(b, it).value, s) ==> x in Bucket(b, s) || x == it.name
    ensures CheckIntent(b, it).value.allIntents == b.allIntents + [it.name]
  {
    CheckIntentSucceedsIff(b, it);
    CheckIntentMatchesReference(b, it);
    var msgs := FirstMessages(it);
    var long := b.longFulfillment + Repeat(it.name, LongDefaultAppends(msgs));
    assert forall x :: x in long ==> x in b.longFulfillment || x == it.name;
  }

  /** The run over the files aborts iff some file it reads holds a
      malformed intent. */
  lemma {:induction false} CheckFilesSucceedsIff(b: Buckets, files: seq<IntentFile>)
    ensures CheckFiles(b, files).Success? <==> forall f :: f in files && !IsTrainingPhrases(f) ==> WellFormed(f.intent)
    decreases files
  {
    if files != [] {
      assert forall f :: f in files <==> f == files[0] || f in files[1..];
      if IsTrainingPhrases(files[0]) {
        CheckFilesSucceedsIff(b, files[1..]);
      } else {
        CheckIntentSucceedsIff(b, files[0].intent);
        if WellFormed(files[0].intent) {
          CheckFilesSucceedsIff(CheckIntent(b, files[0].intent).value, files[1..]);
        }
      }
    }
  }

  /** Lines 144-145: the roster gains the name of every file read, in file
      order, whatever the checks find. */
  lemma {:induction false} CheckFilesRoster(b: Buckets, files: seq<IntentFile>)
    requires CheckFiles(b, files).Success?
    ensures CheckFiles(b, files).value.allIntents == b.allIntents + Names(IntentFiles(files))
    decreases files
  {
    if files != [] {
      var rest := IntentFiles(files[1..]);
      if IsTrainingPhrases(files[0]) {
        assert IntentFiles(files) == rest;
        CheckFilesRoster(b, files[1..]);
      } else {
        var b' := CheckIntent(b, files[0].intent).value;
        WebhookFlag(b, files[0].intent);
        CheckFilesRoster(b', files[1..]);
        var fs := [files[0]] + rest;
        assert IntentFiles(files) == fs;
        assert fs[0] == files[0] && fs[1..] == rest;
        assert Names(fs) == [files[0].intent.name] + Names(rest);
        assert b'.allIntents + Names(rest) == b.allIntents + Names(fs);
      }
    }
  }

  /** Every list but the long one gains exactly its `Listing`: the names
      of the read files, each as often as that intent is appended. */
  lemma {:induction false} CheckFilesListings(b: Buckets, files: seq<IntentFile>, s: Section)
    requires CheckFiles(b, files).Success?
    requires s != LongFulfillment
    ensures Bucket(CheckFiles(b, files).value, s) == Bucket(b, s) + Listing(files, s)
    decreases files
  {
    if files != [] {
      if IsTrainingPhrases(files[0]) {
        CheckFilesListings(b, files[1..], s);
      } else {
        var b' := CheckIntent(b, files[0].intent).value;
        IntentAppends(b, files[0].intent, s);
        CheckFilesListings(b', files[1..], s);
      }
    }
  }

  /** Every name in any list is on the roster, when that held before. */
  lemma {:induction false} ListedNamesOnRoster(b: Buckets, files: seq<IntentFile>)
    requires CheckFiles(b, files).Success?
    requires forall s, x :: x in Bucket(b, s) ==> x in b.allIntents
    ensures var r := CheckFiles(b, files).value;
            forall s, x :: x in Bucket(r, s) ==> x in r.allIntents
    decreases files
  {
    if files != [] {
      if IsTrainingPhrases(files[0]) {
        ListedNamesOnRoster(b, files[1..]);
      } else {
        var b' := CheckIntent(b, files[0].intent).value;
        IntentAppendsOnlyItsName(b, files[0].intent);
        ListedNamesOnRoster(b', files[1..]);
      }
    }
  }

  /** Line 135: training-phrase files are never read, so dropping them
      changes nothing. */
  lemma {:induction false} TrainingPhrasesIgnored(b: Buckets, files: seq<IntentFile>)
    ensures CheckFiles(b, files) == CheckFiles(b, IntentFiles(files))
    decreases files
  {
    if files != [] {
      var rest := IntentFiles(files[1..]);
      if IsTrainingPhrases(files[0]) {
        assert IntentFiles(files) == rest;
        TrainingPhrasesIgnored(b, files[1..]);
      } else {
        var fs := [files[0]] + rest;
        assert IntentFiles(files) == fs;
        assert fs[0] == files[0] && fs[1..] == rest;
        var step := CheckIntent(b, files[0].intent);
        if step.Success? {
          TrainingPhrasesIgnored(step.value, files[1..]);
        }
      }
    }
  }

  /** Lines 107-126 and 133-145: a run over an agent succeeds iff agent.json
      has its end-intent list and every intent read is well formed; the
      end-intent flag is false iff that list is empty, whatever the intents;
      the roster names every intent read, in file order, and every listed
      name is on it. */
  lemma CheckAgentMeaning(agent: Agent, files: seq<IntentFile>)
    ensures CheckAgent(agent, files).Success? <==>
              && agent.googleAssistant.Some? && agent.googleAssistant.value.endIntentIds.Some?
              && forall f :: f in files && !IsTrainingPhrases(f) ==> WellFormed(f.intent)
    ensures CheckAgent(agent, files).Success? ==>
              var r := CheckAgent(agent, files).value;
              && (r.endIntentPresent <==> |agent.googleAssistant.value.endIntentIds.value| > 0)
              && r.buckets.allIntents == Names(IntentFiles(files))
              && |r.buckets.allIntents| == |IntentFiles(files)|
              && forall s, x :: x in Bucket(r.buckets, s) ==> x in r.buckets.allIntents
  {
    CheckFilesSucceedsIff(EmptyBuckets, files);
    if CheckAgent(agent, files).Success? {
      CheckFilesRoster(EmptyBuckets, files);
      ListedNamesOnRoster(EmptyBuckets, files);
    }
  }

  /** Lines 121-126: the end-intent flag does not depend on the intents. */
  lemma EndIntentIndependentOfIntents(agent: Agent, files1: seq<IntentFile>, files2: seq<IntentFile>)
    requires CheckAgent(agent, files1).Success? && CheckAgent(agent, files2).Success?
    ensures CheckAgent(agent, files1).value.endIntentPresent == CheckAgent(agent, files2).value.endIntentPresent
  {
  }
}
