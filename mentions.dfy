/** Mentions of the configured Teams users: the card's mention entities and
    the inline "Mentioned" text. */
module Mentions {
  import opened Text
  import opened AdaptiveCard

  const AtOpen: Bytes := Ascii("<at>")
  const AtClose: Bytes := Ascii("</at>")

  /** Two spaces follow every mention before the text is trimmed. */
  const MentionSeparator: Bytes := [Space, Space]

  /** The mention of one user: `<at>user</at>`, with the user as both its id
      and its name. The user can be read back from the markup. */
  function MentionFor(user: Bytes): (m: Mention)
    ensures m.kind == TypeMention && m.id == user && m.name == user
    ensures |m.text| == |user| + 9
    ensures m.text[..4] == AtOpen && m.text[4..|m.text| - 5] == user && m.text[|m.text| - 5..] == AtClose
    ensures m.text != [] && Trimmed(m.text)
    ensures NoSpace(user) ==> NoSpace(m.text)
  {
    var text := AtOpen + user + AtClose;
    assert text[0] == AtOpen[0] && text[|text| - 1] == AtClose[4];
    assert text[..4] == AtOpen && text[4..|text| - 5] == user && text[|text| - 5..] == AtClose;
    Mention(TypeMention, text, user, user)
  }

  function MentionsOf(users: seq<Bytes>): seq<Mention> {
    seq(|users|, i requires 0 <= i < |users| => MentionFor(users[i]))
  }

  function MentionTexts(users: seq<Bytes>): (texts: seq<Bytes>)
    ensures |texts| == |users|
    ensures forall i | 0 <= i < |users| :: texts[i] == MentionFor(users[i]).text
    ensures forall t | t in texts :: t != [] && Trimmed(t)
  {
    seq(|users|, i requires 0 <= i < |users| => MentionFor(users[i]).text)
  }

  /** The "Mentioned" text: the mentions separated by two spaces, with no
      white space around it; empty exactly when there are no users. */
  function MentionString(users: seq<Bytes>): (r: Bytes)
    ensures r == [] <==> users == []
    ensures Trimmed(r)
  {
    var texts := MentionTexts(users);
    if texts == [] then []
    else
      JoinEnds(texts, MentionSeparator);
      assert texts[0] in texts && texts[|texts| - 1] in texts;
      Join(texts, MentionSeparator)
  }

  /** Splitting the "Mentioned" text on white space gives the mentions back,
      one per user and in order. */
  lemma MentionStringFields(users: seq<Bytes>)
    requires forall u | u in users :: NoSpace(u)
    ensures Fields(MentionString(users)) == MentionTexts(users)
  {
    var texts := MentionTexts(users);
    forall t | t in texts ensures t != [] && NoSpace(t) {
      var i :| 0 <= i < |texts| && texts[i] == t;
      assert users[i] in users;
    }
    FieldsOfJoin(texts, MentionSeparator);
  }

  /** Mentions appended one by one, each followed by the separator. */
  function Padded(texts: seq<Bytes>): Bytes {
    if texts == [] then []
    else Padded(texts[..|texts| - 1]) + texts[|texts| - 1] + MentionSeparator
  }

  lemma {:induction false} PaddedIsJoin(texts: seq<Bytes>)
    requires texts != []
    ensures Padded(texts) == Join(texts, MentionSeparator) + MentionSeparator
  {
    var init := texts[..|texts| - 1];
    var last := texts[|texts| - 1];
    var sep := MentionSeparator;
    assert texts == init + [last];
    assert Padded(texts) == Padded(init) + last + sep;
    if init != [] {
      PaddedIsJoin(init);
      JoinSnoc(init, last, sep);
      assert Padded(texts) == Join(init, sep) + sep + last + sep;
    } else {
      assert Padded(init) == [];
      assert Join(texts, sep) == last;
    }
  }

  /** Trimming the padded mentions leaves them joined by the separator. */
  lemma TrimPadded(texts: seq<Bytes>)
    requires forall t | t in texts :: t != [] && Trimmed(t)
    ensures TrimSpace(Padded(texts)) == Join(texts, MentionSeparator)
  {
    if texts != [] {
      PaddedIsJoin(texts);
      var j := Join(texts, MentionSeparator);
      JoinEnds(texts, MentionSeparator);
      assert texts[0] in texts && texts[|texts| - 1] in texts;
      TrimSpaceDropsSuffix(j, MentionSeparator);
    }
  }

  /** One mention per white-space separated user in the configuration, in
      order. */
  method GenerateCardMentions(teamsMentions: Bytes) returns (mentions: seq<Mention>)
    ensures mentions == MentionsOf(Fields(teamsMentions))
  {
    var users := Fields(teamsMentions);
    mentions := [];
    for i := 0 to |users|
      invariant |mentions| == i
      invariant forall k | 0 <= k < i :: mentions[k] == MentionFor(users[k])
    {
      mentions := mentions + [Mention(TypeMention, AtOpen + users[i] + AtClose, users[i], users[i])];
    }
  }

  /** The "Mentioned" text: every mention followed by two spaces, then
      trimmed. */
  method GenerateCardMentionString(teamsMentions: Bytes) returns (s: Bytes)
    ensures s == MentionString(Fields(teamsMentions))
  {
    var mentions := GenerateCardMentions(teamsMentions);
    ghost var texts := MentionTexts(Fields(teamsMentions));
    var mentionString: Bytes := [];
    for i := 0 to |mentions|
      invariant mentionString == Padded(texts[..i])
    {
      assert mentions[i].text == texts[i];
      mentionString := mentionString + mentions[i].text + MentionSeparator;
      assert texts[..i + 1][..i] == texts[..i];
    }
    assert texts[..|mentions|] == texts;
    TrimPadded(texts);
    s := TrimSpace(mentionString);
  }
}
