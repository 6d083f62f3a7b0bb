/** The Sensu handler itself: the configuration check and the Adaptive Card
    built for one event. The configuration, which the handler keeps in a
    process-wide variable, is passed in explicitly, and so is the formatting
    of a Unix time as a local-time string. */
module Handler {
  import opened Text
  import opened Status
  import opened Truncation
  import opened Mentions
  import opened AdaptiveCard
  import Utf8

  newtype int64 = x: int | -0x8000_0000_0000_0000 <= x < 0x8000_0000_0000_0000

  /** The handler's options: Teams webhook URL, the users to mention
      (separated by white space) and the base URL of the Sensu web UI. */
  datatype Config = Config(teamsWebhook: Bytes, teamsMentions: Bytes, sensuUrl: Bytes)

  datatype Entity = Entity(name: Bytes, namespace: Bytes)

  /** One past execution of the check; only its status is shown. */
  datatype CheckHistory = CheckHistory(status: uint32)

  datatype Check = Check(
    name: Bytes,
    status: uint32,
    output: Bytes,
    lastOk: int64,
    issued: int64,
    history: seq<CheckHistory>)

  /** A Sensu event. Its annotations are taken in the order Go happens to
      visit the annotation map. */
  datatype Event = Event(entity: Entity, check: Check, annotations: seq<Annotation>)

  datatype Outcome = Pass | Fail(error: Bytes)

  datatype Result<T> = Success(value: T) | Failure(error: Bytes)

  const WebhookMissing: Bytes := Ascii("webhook url is not defined in flags nor environment")

  /** The configuration check: it fails exactly when no webhook URL is set. */
  function ValidateConfig(config: Config): (r: Outcome)
    ensures r.Fail? <==> config.teamsWebhook == []
    ensures r.Fail? ==> r.error == WebhookMissing
  {
    if |config.teamsWebhook| == 0 then Fail(WebhookMissing) else Pass
  }

  // ---------------------------------------------------------------------
  // Link back into Sensu

  /** The fixed segments of an event's path: "c", "~", "n" and "events". */
  const ConsoleSegment: Bytes := [0x63]
  const HomeSegment: Bytes := [0x7E]
  const NamespaceSegment: Bytes := [0x6E]
  const EventsSegment: Bytes := [0x65, 0x76, 0x65, 0x6E, 0x74, 0x73]

  /** "/c/~/n/" and "/events/". */
  const NamespacesPath: Bytes := [Slash] + ConsoleSegment + [Slash] + HomeSegment + [Slash] + NamespaceSegment + [Slash]
  const EventsPath: Bytes := [Slash] + EventsSegment + [Slash]

  /** The event's page in the Sensu web UI. */
  function EventSensuUrl(config: Config, event: Event): (url: Bytes)
    ensures |url| == |config.sensuUrl| + |event.entity.namespace| + |event.entity.name| + |event.check.name| + 16
    ensures url[..|config.sensuUrl|] == config.sensuUrl
  {
    config.sensuUrl + NamespacesPath + event.entity.namespace + EventsPath
      + event.entity.name + [Slash] + event.check.name
  }

  /** The path segments of the event's page after the base URL. */
  function UrlPath(event: Event): (p: seq<Bytes>)
    ensures |p| == 7
  {
    [ConsoleSegment, HomeSegment, NamespaceSegment, event.entity.namespace, EventsSegment, event.entity.name, event.check.name]
  }

  lemma UrlPathJoin(event: Event)
    ensures NamespacesPath + event.entity.namespace + EventsPath + event.entity.name + [Slash] + event.check.name
      == [Slash] + Join(UrlPath(event), [Slash])
  {
    var p := UrlPath(event);
    var s := [Slash];
    assert NamespacesPath == s + p[0] + s + p[1] + s + p[2] + s;
    assert EventsPath == s + p[4] + s;
    assert Join(p[6..], s) == p[6];
    assert Join(p[5..], s) == p[5] + s + Join(p[6..], s) by { assert p[5..][1..] == p[6..]; }
    assert Join(p[4..], s) == p[4] + s + Join(p[5..], s) by { assert p[4..][1..] == p[5..]; }
    assert Join(p[3..], s) == p[3] + s + Join(p[4..], s) by { assert p[3..][1..] == p[4..]; }
    assert Join(p[2..], s) == p[2] + s + Join(p[3..], s) by { assert p[2..][1..] == p[3..]; }
    assert Join(p[1..], s) == p[1] + s + Join(p[2..], s) by { assert p[1..][1..] == p[2..]; }
    assert Join(p, s) == p[0] + s + Join(p[1..], s);
  }

  lemma UrlPathSlashFree(event: Event)
    requires Slash !in event.entity.namespace && Slash !in event.entity.name && Slash !in event.check.name
    ensures forall q | q in UrlPath(event) :: Slash !in q
  {
    var p := UrlPath(event);
    forall q | q in p ensures Slash !in q {
      var k :| 0 <= k < 7 && p[k] == q;
    }
  }

  lemma EventSensuUrlSplit(config: Config, event: Event)
    ensures EventSensuUrl(config, event) == config.sensuUrl + ([Slash] + Join(UrlPath(event), [Slash]))
  {
    var rest := NamespacesPath + event.entity.namespace + EventsPath + event.entity.name + [Slash] + event.check.name;
    UrlPathJoin(event);
    assert EventSensuUrl(config, event) == config.sensuUrl + rest;
  }

  /** When the namespace, entity and check names contain no slash, the link is
      the base URL followed by the path segments, and splitting what follows
      the base URL on slashes gives the segments back: the link names the
      event unambiguously. */
  lemma SensuUrlRoundTrip(config: Config, event: Event)
    requires Slash !in event.entity.namespace && Slash !in event.entity.name && Slash !in event.check.name
    ensures var url := EventSensuUrl(config, event);
      && url == config.sensuUrl + [Slash] + Join(UrlPath(event), [Slash])
      && Split(url[|config.sensuUrl| + 1..], Slash) == UrlPath(event)
  {
    var p := UrlPath(event);
    var j := Join(p, [Slash]);
    EventSensuUrlSplit(config, event);
    var url := EventSensuUrl(config, event);
    assert url[|config.sensuUrl| + 1..] == j;
    UrlPathSlashFree(event);
    SplitOfJoin(p, Slash);
  }

  // ---------------------------------------------------------------------
  // Title

  const ExtraLarge: Bytes := Ascii("extraLarge")
  const ColonSpace: Bytes := Ascii(": ")
  const SpacedDash: Bytes := Ascii(" - ")

  /** The title text: icon, space, label, colon and space, entity name,
      spaced dash, check name. */
  function TitleText(glyph: Bytes, statusText: Bytes, name: Bytes, check: Bytes): (t: Bytes)
    requires |glyph| == 3
    ensures |t| == 3 + 1 + |statusText| + 2 + |name| + 3 + |check|
    ensures t[..3] == glyph && t[3] == Space
    ensures t[4..4 + |statusText|] == statusText
    ensures t[4 + |statusText|..6 + |statusText|] == ColonSpace
    ensures t[6 + |statusText|..6 + |statusText| + |name|] == name
    ensures t[|t| - |check| - 3..|t| - |check|] == SpacedDash
    ensures t[|t| - |check|..] == check
  {
    var head := glyph + [Space] + statusText + ColonSpace;
    var tail := SpacedDash + check;
    assert head[4..4 + |statusText|] == statusText;
    assert head[4 + |statusText|..] == ColonSpace;
    assert tail[..3] == SpacedDash && tail[3..] == check;
    var t := head + name + tail;
    assert t[..|head|] == head;
    assert t[|head|..|head| + |name|] == name;
    assert t[|t| - |tail|..] == tail;
    t
  }

  /** The card title `<icon> <label>: <entity> - <check>`, extra large: it
      opens with the status icon and shows the status label, the entity name
      and the check name at fixed places. */
  function GenerateCardTitle(event: Event): (e: Element)
    ensures e.TitleTextBlock? && e.size == ExtraLarge
    ensures var t := e.text;
      var statusText := StatusString(event.check.status);
      var name := event.entity.name;
      && |t| == 3 + 1 + |statusText| + 2 + |name| + 3 + |event.check.name|
      && t[..3] == StatusGlyph(event.check.status) && t[3] == Space
      && t[4..4 + |statusText|] == statusText
      && t[4 + |statusText|..6 + |statusText|] == ColonSpace
      && t[6 + |statusText|..6 + |statusText| + |name|] == name
      && t[|t| - |event.check.name| - 3..|t| - |event.check.name|] == SpacedDash
      && t[|t| - |event.check.name|..] == event.check.name
  {
    var status := event.check.status;
    TitleTextBlock(TitleText(StatusGlyph(status), StatusString(status), event.entity.name, event.check.name), ExtraLarge)
  }

  // ---------------------------------------------------------------------
  // History strip

  /** The status history as icons, oldest first, each followed by a space. */
  function HistoryStrip(history: seq<CheckHistory>): Bytes {
    if history == [] then []
    else HistoryStrip(history[..|history| - 1]) + StatusGlyph(history[|history| - 1].status) + [Space]
  }

  /** Every entry takes four bytes. */
  lemma {:induction false} HistoryStripLength(history: seq<CheckHistory>)
    ensures |HistoryStrip(history)| == 4 * |history|
  {
    if history != [] {
      HistoryStripLength(history[..|history| - 1]);
    }
  }

  /** Entry `i` of the history takes bytes `4i` to `4i + 4` of the strip: its
      status icon, then a space. */
  lemma {:induction false} HistoryStripLayout(history: seq<CheckHistory>, i: nat)
    requires i < |history|
    ensures |HistoryStrip(history)| == 4 * |history|
    ensures HistoryStrip(history)[4 * i..4 * i + 4] == StatusGlyph(history[i].status) + [Space]
  {
    var init := history[..|history| - 1];
    var last := StatusGlyph(history[|history| - 1].status) + [Space];
    HistoryStripLength(history);
    HistoryStripLength(init);
    var prefix := HistoryStrip(init);
    assert HistoryStrip(history) == prefix + last;
    if i < |init| {
      HistoryStripLayout(init, i);
      assert init[i] == history[i];
      assert (prefix + last)[4 * i..4 * i + 4] == prefix[4 * i..4 * i + 4];
    } else {
      assert (prefix + last)[4 * i..4 * i + 4] == last;
    }
  }

  /** An empty history gives an empty strip. */
  lemma HistoryStripEmpty(history: seq<CheckHistory>)
    ensures HistoryStrip(history) == [] <==> history == []
  {
    if history != [] {
      HistoryStripLayout(history, 0);
    }
  }

  /** The history strip, built entry by entry. */
  method EventStatusHistory(event: Event) returns (history: Bytes)
    ensures history == HistoryStrip(event.check.history)
  {
    var items := event.check.history;
    history := [];
    for i := 0 to |items|
      invariant history == HistoryStrip(items[..i])
    {
      history := history + StatusGlyph(items[i].status) + [Space];
      assert items[..i + 1][..i] == items[..i];
    }
    assert items[..|items|] == items;
  }

  // ---------------------------------------------------------------------
  // Facts

  const HistoryTitle: Bytes := Ascii("History (past ") + Utf8.EncodeRune(0x2192) + Ascii(" now)")
  const NamespaceTitle: Bytes := Ascii("Namespace")
  const EntityTitle: Bytes := Ascii("Entity")
  const CheckTitle: Bytes := Ascii("Check")
  const StatusTitle: Bytes := Ascii("Status")
  const LastOkTitle: Bytes := Ascii("Last Ok")
  const CreatedTitle: Bytes := Ascii("Event created")
  const MentionedTitle: Bytes := Ascii("Mentioned")

  /** The titles every card shows, in order. */
  const FixedFactTitles: seq<Bytes> :=
    [HistoryTitle, NamespaceTitle, EntityTitle, CheckTitle, StatusTitle, LastOkTitle, CreatedTitle]

  function FactTitles(facts: seq<Fact>): (titles: seq<Bytes>)
    ensures |titles| == |facts|
  {
    seq(|facts|, i requires 0 <= i < |facts| => facts[i].title)
  }

  lemma FactTitlesSnoc(facts: seq<Fact>, fact: Fact)
    ensures FactTitles(facts + [fact]) == FactTitles(facts) + [fact.title]
  {
    var l, r := FactTitles(facts + [fact]), FactTitles(facts) + [fact.title];
    assert forall i | 0 <= i < |l| :: l[i] == r[i];
  }

  /** The library's `AddFact` on a fact set: the fact goes last. */
  function AddFact(factSet: Element, fact: Fact): Element
    requires factSet.FactSet?
  {
    factSet.(facts := factSet.facts + [fact])
  }

  /** The fact set of the card for `event`: seven fixed facts in order, then
      a "Mentioned" fact exactly when the mention text is not empty. */
  predicate IsCardFacts(e: Element, event: Event, config: Config, localTime: int64 -> Bytes) {
    var mentioned := MentionString(Fields(config.teamsMentions));
    && e.FactSet? && e.isSubtle
    && FactTitles(e.facts) == FixedFactTitles + (if mentioned == [] then [] else [MentionedTitle])
    && e.facts[0].value == HistoryStrip(event.check.history)
    && e.facts[1].value == event.entity.namespace
    && e.facts[2].value == event.entity.name
    && e.facts[3].value == event.check.name
    && e.facts[4].value == StatusString(event.check.status)
    && e.facts[5].value == localTime(event.check.lastOk)
    && e.facts[6].value == localTime(event.check.issued)
    && (mentioned != [] ==> e.facts[7].value == mentioned)
  }

  /** The facts, added one by one to a new fact set. */
  method GenerateCardFacts(event: Event, config: Config, localTime: int64 -> Bytes) returns (e: Element)
    ensures IsCardFacts(e, event, config, localTime)
  {
    var history := EventStatusHistory(event);
    var facts := NewFactSet;
    facts := AddFact(facts, Fact(HistoryTitle, history));
    facts := AddFact(facts, Fact(NamespaceTitle, event.entity.namespace));
    facts := AddFact(facts, Fact(EntityTitle, event.entity.name));
    facts := AddFact(facts, Fact(CheckTitle, event.check.name));
    facts := AddFact(facts, Fact(StatusTitle, StatusString(event.check.status)));
    facts := AddFact(facts, Fact(LastOkTitle, localTime(event.check.lastOk)));
    facts := AddFact(facts, Fact(CreatedTitle, localTime(event.check.issued)));
    ghost var fixed := facts.facts;
    assert |fixed| == 7;
    assert FactTitles(fixed) == FixedFactTitles by {
      var t := FactTitles(fixed);
      assert t[0] == HistoryTitle && t[1] == NamespaceTitle && t[2] == EntityTitle && t[3] == CheckTitle;
      assert t[4] == StatusTitle && t[5] == LastOkTitle && t[6] == CreatedTitle;
    }

    var mentions := GenerateCardMentionString(config.teamsMentions);
    if mentions != [] {
      facts := AddFact(facts, Fact(MentionedTitle, mentions));
      FactTitlesSnoc(fixed, Fact(MentionedTitle, mentions));
    }

    facts := facts.(isSubtle := true);
    e := facts;
  }

  /** The "Mentioned" fact is there exactly when at least one user is
      configured, and splitting its text on white space gives the markup of
      each configured user, in order. */
  lemma MentionedFact(e: Element, event: Event, config: Config, localTime: int64 -> Bytes)
    requires IsCardFacts(e, event, config, localTime)
    ensures |e.facts| == 8 <==> Fields(config.teamsMentions) != []
    ensures |e.facts| == 8 ==> Fields(e.facts[7].value) == MentionTexts(Fields(config.teamsMentions))
  {
    var users := Fields(config.teamsMentions);
    assert |FactTitles(e.facts)| == |e.facts|;
    MentionStringFields(users);
  }

  // ---------------------------------------------------------------------
  // Actions

  const ShowOutputTitle: Bytes := Ascii("Show check output")
  const ShowAnnotationsTitle: Bytes := Ascii("Show event annotations")
  const OpenInSensuTitle: Bytes := Ascii("Open in Sensu")

  /** A new card holding one text block. */
  function TextCard(text: Bytes): Card {
    NewCard.(body := [TextBlock(text)])
  }

  /** The nested card with the check output, within the length budget. */
  function GenerateCardEventOutput(event: Event): (c: Card)
    ensures |c.body| == 1 && c.body[0].TextBlock? && c.actions == []
    ensures |c.body[0].text| <= 506
    ensures c.body[0].text == OutputTruncated(event.check.output)
  {
    TextCard(OutputTruncated(event.check.output))
  }

  /** The nested card with the annotations, within the length budget. */
  method GenerateCardEventAnnotations(event: Event) returns (c: Card)
    ensures c == TextCard(Truncate(RenderAnnotations(event.annotations)))
    ensures |c.body[0].text| <= 506
  {
    var text := AnnotationsTruncated(event.annotations);
    c := NewCard;
    c := c.(body := c.body + [TextBlock(text)]);
  }

  /** The card's three actions, in order: show the output, show the
      annotations, open the event in Sensu. */
  predicate IsCardActions(actions: seq<Action>, event: Event, config: Config) {
    && |actions| == 3
    && actions[0] == ShowCard(ShowOutputTitle, GenerateCardEventOutput(event))
    && actions[1] == ShowCard(ShowAnnotationsTitle, TextCard(Truncate(RenderAnnotations(event.annotations))))
    && actions[2] == OpenUrl(OpenInSensuTitle, EventSensuUrl(config, event))
  }

  method GenerateCardActions(event: Event, config: Config) returns (actions: seq<Action>)
    ensures IsCardActions(actions, event, config)
  {
    var annotationsCard := GenerateCardEventAnnotations(event);
    actions := [
      ShowCard(ShowOutputTitle, GenerateCardEventOutput(event)),
      ShowCard(ShowAnnotationsTitle, annotationsCard),
      OpenUrl(OpenInSensuTitle, EventSensuUrl(config, event))
    ];
  }

  // ---------------------------------------------------------------------
  // The card

  const FullWidth: Bytes := Ascii("full")

  /** The card for `event`: the title and the facts in its body, the three
      actions, full width, and one mention entity per configured user. It
      is always built. */
  method GenerateAdaptiveCard(event: Event, config: Config, localTime: int64 -> Bytes) returns (r: Result<Card>)
    ensures r.Success?
    ensures var c := r.value;
      && |c.body| == 2
      && c.body[0] == GenerateCardTitle(event)
      && IsCardFacts(c.body[1], event, config, localTime)
      && IsCardActions(c.actions, event, config)
      && c.width == FullWidth
      && c.entities == MentionsOf(Fields(config.teamsMentions))
      && (c.entities != [] <==> Fields(config.teamsMentions) != [])
  {
    var card := NewCard;
    card := card.(body := card.body + [GenerateCardTitle(event)]);
    var facts := GenerateCardFacts(event, config, localTime);
    card := card.(body := card.body + [facts]);
    var actions := GenerateCardActions(event, config);
    card := card.(actions := card.actions + actions);
    card := card.(width := FullWidth);

    var mentions := GenerateCardMentions(config.teamsMentions);
    if |mentions| > 0 {
      card := card.(entities := card.entities + mentions);
    }
    r := Success(card);
  }

  /** On a built card the status shown among the facts is the statusText the title
      shows after the icon. */
  lemma StatusFactMatchesTitle(c: Card, event: Event, config: Config, localTime: int64 -> Bytes)
    requires |c.body| == 2 && c.body[0] == GenerateCardTitle(event)
    requires IsCardFacts(c.body[1], event, config, localTime)
    ensures var statusText := c.body[1].facts[4].value;
      c.body[0].text[4..4 + |statusText|] == statusText
  {
    assert |FactTitles(c.body[1].facts)| == |c.body[1].facts|;
  }
}
