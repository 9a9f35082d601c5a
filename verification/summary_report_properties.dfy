/** What the summary shows: which sections appear, when the success line
    appears, and that every listed name is printed, in list order. */
module SummaryReportProperties {
  import opened IntentChecks
  import opened AgentChecks
  import opened SummaryReport

  lemma {:induction false} EntryNamesConcat(a: seq<Write>, b: seq<Write>)
    ensures EntryNames(a + b) == EntryNames(a) + EntryNames(b)
  {
    if a != [] {
      var hd := if a[0].Entry? then [a[0].name] else [];
      assert (a + b)[0] == a[0] && (a + b)[1..] == a[1..] + b;
      EntryNamesConcat(a[1..], b);
      calc {
        EntryNames(a + b);
        hd + EntryNames(a[1..] + b);
        hd + (EntryNames(a[1..]) + EntryNames(b));
        (hd + EntryNames(a[1..])) + EntryNames(b);
      }
    } else {
      assert a + b == b;
    }
  }

  lemma {:induction false} NoEntries(ws: seq<Write>)
    requires forall w :: w in ws ==> !w.Entry?
    ensures EntryNames(ws) == []
  {
    if ws != [] {
      assert ws[0] in ws;
      assert forall w :: w in ws[1..] ==> w in ws;
      NoEntries(ws[1..]);
    }
  }

  /** Printing names as entry lines and reading the entry lines back gives
      the names. */
  lemma {:induction false} EntriesRoundTrip(names: seq<string>)
    ensures EntryNames(Entries(names)) == names
  {
    if names != [] {
      var es := Entries(names);
      assert es == [Entry(names[0])] + Entries(names[1..]);
      EntryNamesConcat([Entry(names[0])], Entries(names[1..]));
      EntriesRoundTrip(names[1..]);
      assert EntryNames([Entry(names[0])]) == [names[0]] by {
        assert [Entry(names[0])][1..] == [];
      }
    }
  }

  /** A headed list holds its heading, the rules, its entries and the empty
      line, and nothing else. */
  lemma ListBlockMembers(heading: Write, names: seq<string>)
    ensures heading in ListBlock(heading, names)
    ensures forall w :: w in ListBlock(heading, names) && !w.Entry? ==>
              w == Rule || w == heading || w == RuleGap || w == EndOfList
  {
  }

  lemma ListBlockNames(heading: Write, names: seq<string>)
    requires !heading.Entry?
    ensures EntryNames(ListBlock(heading, names)) == names
  {
    var head := [Rule, heading, RuleGap];
    EntryNamesConcat(head + Entries(names), [EndOfList]);
    EntryNamesConcat(head, Entries(names));
    EntriesRoundTrip(names);
    NoEntries(head);
    NoEntries([EndOfList]);
  }

  /** A section block carries a section heading iff it is that section's
      block and the list is non-empty. */
  lemma SectionBlockHeading(b: Buckets, t: Section, s: Section)
    ensures SectionHeading(s) in SectionBlock(b, t) <==> s == t && |Bucket(b, t)| > 0
    ensures NoProblems !in SectionBlock(b, t)
    ensures RosterHeading !in SectionBlock(b, t)
  {
    if |Bucket(b, t)| > 0 {
      ListBlockMembers(SectionHeading(t), Bucket(b, t));
    }
  }

  lemma SectionBlockNames(b: Buckets, t: Section)
    ensures EntryNames(SectionBlock(b, t)) == Bucket(b, t)
  {
    if |Bucket(b, t)| > 0 {
      ListBlockNames(SectionHeading(t), Bucket(b, t));
    }
  }

  /** The finding sections carry a section heading iff that section's list
      is non-empty, and never the success line or the roster heading. */
  lemma FindingsHeadings(b: Buckets, s: Section)
    ensures SectionHeading(s) in Findings(b) <==> |Bucket(b, s)| > 0
    ensures NoProblems !in Findings(b)
    ensures RosterHeading !in Findings(b)
  {
    var s1 := SectionBlock(b, NoWebhook);
    var s2 := SectionBlock(b, NoDefaultFulfillment);
    var s3 := SectionBlock(b, LongFulfillment);
    var s4 := SectionBlock(b, NoDefaultFront);
    var s5 := SectionBlock(b, NoAccessibilityText);
    assert Findings(b) == s1 + s2 + s3 + s4 + s5;
    SectionBlockHeading(b, NoWebhook, s);
    SectionBlockHeading(b, NoDefaultFulfillment, s);
    SectionBlockHeading(b, LongFulfillment, s);
    SectionBlockHeading(b, NoDefaultFront, s);
    SectionBlockHeading(b, NoAccessibilityText, s);
  }

  /** The closing part carries the roster heading and no section heading;
      it carries the success line iff the success test holds. */
  lemma ClosingHeadings(b: Buckets, s: Section)
    ensures SectionHeading(s) !in Closing(b)
    ensures RosterHeading in Closing(b)
    ensures NoProblems in Closing(b) <==> NoProblemsFound(b)
  {
    var ok := if NoProblemsFound(b) then [NoProblems, BlankPair] else [];
    var roster := ListBlock(RosterHeading, b.allIntents);
    assert Closing(b) == ok + roster + [Trailer];
    ListBlockMembers(RosterHeading, b.allIntents);
    if NoProblemsFound(b) {
      assert NoProblems == ok[0];
    }
  }

  /** Lines 38-76: a finding section's heading is written iff its list is
      non-empty. */
  lemma SectionShownIff(agent: string, report: Report, s: Section)
    ensures SectionHeading(s) in Render(agent, report) <==> |Bucket(report.buckets, s)| > 0
  {
    var b := report.buckets;
    var o, f, c := Opening(agent, report), Findings(b), Closing(b);
    assert Render(agent, report) == o + f + c;
    assert SectionHeading(s) !in o;
    FindingsHeadings(b, s);
    ClosingHeadings(b, s);
  }

  /** Lines 78-80: the success line is written iff the no-webhook, no-default,
      long and not-in-front lists are all empty, whatever the accessibility
      list holds. */
  lemma NoProblemsIff(agent: string, report: Report)
    ensures NoProblems in Render(agent, report) <==>
              var b := report.buckets;
              b.noWebhook == [] && b.noDefaultFulfillment == [] && b.longFulfillment == [] && b.noDefaultFront == []
  {
    var b := report.buckets;
    var o, f, c := Opening(agent, report), Findings(b), Closing(b);
    assert Render(agent, report) == o + f + c;
    assert NoProblems !in o;
    FindingsHeadings(b, NoWebhook);
    ClosingHeadings(b, NoWebhook);
  }

  /** Lines 30-36 and 82-89: every report starts with the agent banner,
      states the end-intent flag, shows the roster heading and ends with the
      trailer, whatever the lists hold. */
  lemma FrameAlwaysShown(agent: string, report: Report)
    ensures var ws := Render(agent, report);
      && ws[0] == Banner
      && AgentLine(agent) in ws
      && EndIntentLine(report.endIntentPresent) in ws
      && RosterHeading in ws
      && ws[|ws| - 1] == Trailer
  {
    ListBlockMembers(RosterHeading, report.buckets.allIntents);
    assert RosterHeading in Closing(report.buckets);
  }

  lemma FindingsNames(b: Buckets)
    ensures EntryNames(Findings(b))
            == b.noWebhook + b.noDefaultFulfillment + b.longFulfillment + b.noDefaultFront + b.noAccessibilityText
  {
    var s1 := SectionBlock(b, NoWebhook);
    var s2 := SectionBlock(b, NoDefaultFulfillment);
    var s3 := SectionBlock(b, LongFulfillment);
    var s4 := SectionBlock(b, NoDefaultFront);
    var s5 := SectionBlock(b, NoAccessibilityText);
    SectionBlockNames(b, NoWebhook);
    SectionBlockNames(b, NoDefaultFulfillment);
    SectionBlockNames(b, LongFulfillment);
    SectionBlockNames(b, NoDefaultFront);
    SectionBlockNames(b, NoAccessibilityText);
    EntryNamesConcat(s1, s2);
    EntryNamesConcat(s1 + s2, s3);
    EntryNamesConcat(s1 + s2 + s3, s4);
    EntryNamesConcat(s1 + s2 + s3 + s4, s5);
  }

  lemma ClosingNames(b: Buckets)
    ensures EntryNames(Closing(b)) == b.allIntents
  {
    var ok := if NoProblemsFound(b) then [NoProblems, BlankPair] else [];
    var roster := ListBlock(RosterHeading, b.allIntents);
    NoEntries(ok);
    NoEntries([Trailer]);
    ListBlockNames(RosterHeading, b.allIntents);
    EntryNamesConcat(ok, roster);
    EntryNamesConcat(ok + roster, [Trailer]);
  }

  /** Lines 42-43, 50-51, 58-59, 66-67, 74-75 and 85-86: the entry lines are
      the five finding lists in section order, then the roster, with every
      duplicate kept. */
  lemma RenderListsEveryName(agent: string, report: Report)
    ensures var b := report.buckets;
      EntryNames(Render(agent, report))
      == b.noWebhook + b.noDefaultFulfillment + b.longFulfillment + b.noDefaultFront
         + b.noAccessibilityText + b.allIntents
  {
    var b := report.buckets;
    var o, f, c := Opening(agent, report), Findings(b), Closing(b);
    var lists := b.noWebhook + b.noDefaultFulfillment + b.longFulfillment + b.noDefaultFront + b.noAccessibilityText;
    NoEntries(o);
    FindingsNames(b);
    ClosingNames(b);
    EntryNamesConcat(o, f);
    EntryNamesConcat(o + f, c);
    calc {
      EntryNames(Render(agent, report));
      EntryNames(o + f + c);
      EntryNames(o + f) + EntryNames(c);
      (EntryNames(o) + EntryNames(f)) + EntryNames(c);
      ([] + lists) + b.allIntents;
      { assert [] + lists == lists; }
      lists + b.allIntents;
    }
  }

  lemma {:induction false} DocumentConcat(a: seq<Write>, b: seq<Write>)
    ensures Document(a + b) == Document(a) + Document(b)
  {
    if a == [] {
      assert a + b == b;
    } else {
      assert (a + b)[0] == a[0] && (a + b)[1..] == a[1..] + b;
      DocumentConcat(a[1..], b);
    }
  }

  lemma DocumentOne(w: Write)
    ensures Document([w]) == Text(w)
  {
    assert [w][1..] == [];
  }

  /** Lines 30-36: the opening is the banner, the agent line, the banner with
      an empty line, the end-intent flag and two newlines, in this order. */
  lemma OpeningText(agent: string, report: Report)
    ensures Document(Opening(agent, report))
            == Text(Banner) + Text(AgentLine(agent)) + Text(BannerGap)
               + Text(EndIntentLine(report.endIntentPresent)) + Text(BlankPair)
  {
    var o := Opening(agent, report);
    assert o == [o[0]] + ([o[1]] + ([o[2]] + ([o[3]] + [o[4]])));
    DocumentConcat([o[0]], [o[1]] + ([o[2]] + ([o[3]] + [o[4]])));
    DocumentConcat([o[1]], [o[2]] + ([o[3]] + [o[4]]));
    DocumentConcat([o[2]], [o[3]] + [o[4]]);
    DocumentConcat([o[3]], [o[4]]);
    DocumentOne(o[0]);
    DocumentOne(o[1]);
    DocumentOne(o[2]);
    DocumentOne(o[3]);
    DocumentOne(o[4]);
  }

  /** Lines 42-43: printing a list writes one line per name, in order; one
      more name adds exactly its line at the end. */
  lemma EntriesText(names: seq<string>, name: string)
    ensures Document(Entries([])) == ""
    ensures Document(Entries(names + [name])) == Document(Entries(names)) + name + "\n"
  {
    EntriesSnoc(names, name);
    DocumentConcat(Entries(names), [Entry(name)]);
    DocumentOne(Entry(name));
  }

  lemma {:induction false} EntriesSnoc(names: seq<string>, name: string)
    ensures Entries(names + [name]) == Entries(names) + [Entry(name)]
  {
    if names == [] {
      assert names + [name] == [name];
    } else {
      assert (names + [name])[0] == names[0] && (names + [name])[1..] == names[1..] + [name];
      EntriesSnoc(names[1..], name);
    }
  }

  /** Lines 39-44 and 82-87: a headed list is the rule line, the heading
      line, the rule with an empty line, the names, and an empty line. */
  lemma ListBlockText(heading: Write, names: seq<string>)
    ensures Document(ListBlock(heading, names))
            == Text(Rule) + Text(heading) + Text(RuleGap) + Document(Entries(names)) + Text(EndOfList)
  {
    var head, es := [Rule, heading, RuleGap], Entries(names);
    DocumentConcat(head + es, [EndOfList]);
    DocumentConcat(head, es);
    DocumentOne(EndOfList);
    HeadText(heading);
  }

  lemma HeadText(heading: Write)
    ensures Document([Rule, heading, RuleGap]) == Text(Rule) + Text(heading) + Text(RuleGap)
  {
    assert [Rule, heading, RuleGap] == [Rule] + ([heading] + [RuleGap]);
    DocumentConcat([Rule], [heading] + [RuleGap]);
    DocumentConcat([heading], [RuleGap]);
    DocumentOne(Rule);
    DocumentOne(heading);
    DocumentOne(RuleGap);
  }

  /** Lines 30, 34, 39-41 and 83: the banner is forty '$', the flag is
      printed as Python prints a bool, and the roster heading keeps its
      trailing space. */
  lemma WrittenText(present: bool)
    ensures |Dollars| == 40 && forall i :: 0 <= i < |Dollars| ==> Dollars[i] == '$'
    ensures Text(EndIntentLine(present)) == "Have end of conversation intent? " + (if present then "True" else "False")
    ensures Text(RosterHeading) == "ALL INTENTS \n"
    ensures Text(Rule) == "--------\n" && Text(RuleGap) == "--------\n\n"
  {
  }
}
