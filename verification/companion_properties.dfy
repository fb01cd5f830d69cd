/**
 * Properties of the companion route that relate several calls: the image
 * service never decides whether a turn succeeds, a reply without a tag is
 * shown unchanged, and worked examples of the tag extraction.
 */
module CompanionProperties {
  import opened Wrappers
  import opened Json
  import opened Text
  import opened ImageTag
  import opened CompanionRoute

  /**
   * The auxiliary image call cannot fail a turn: whatever the image service
   * does, the status, text, prompt and calls are the same, and a non-ok or
   * throwing service leaves the image `null`.
   */
  lemma AuxFailureDowngraded(
    req: CompanionRequest, hasToken: bool, chat: ChatCall -> ReplyOutcome,
    s1: string -> AuxOutcome, s2: string -> AuxOutcome)
    ensures var x1, x2 := HandleCompanion(req, hasToken, chat, s1), HandleCompanion(req, hasToken, chat, s2);
      && x1.response.Answered? == x2.response.Answered?
      && x1.chatCall == x2.chatCall && x1.imageCall == x2.imageCall
      && (x1.response.Rejected? ==> x1.response == x2.response)
      && (x1.response.Answered? ==>
            x1.response.text == x2.response.text && x1.response.imagePrompt == x2.response.imagePrompt)
    ensures var x := HandleCompanion(req, hasToken, chat, s1);
      x.imageCall.Some? && !s1(x.imageCall.value).AuxDelivered? ==> x.response.Answered? && x.response.image.None?
  {
  }

  /** Without a configured token, or with image generation switched off, no image call is made. */
  lemma NoImageWithoutGate(
    req: CompanionRequest, hasToken: bool, chat: ChatCall -> ReplyOutcome, service: string -> AuxOutcome)
    requires !hasToken || req.generateImage == Bool(false)
    ensures HandleCompanion(req, hasToken, chat, service).imageCall.None?
    ensures HandleCompanion(req, hasToken, chat, service).response.Answered? ==>
              HandleCompanion(req, hasToken, chat, service).response.image.None?
  {
  }

  /**
   * With the gate open (token present, `generate_image` absent or truthy, a
   * non-empty extracted prompt) the image call is made with the auxiliary
   * prompt, and what it delivers is the image returned.
   */
  lemma OpenGateCallsImage(
    req: CompanionRequest, chat: ChatCall -> ReplyOutcome, service: string -> AuxOutcome)
    requires HandleCompanion(req, true, chat, service).response.Answered?
    requires req.generateImage.Undefined? || Truthy(req.generateImage)
    requires HandleCompanion(req, true, chat, service).response.imagePrompt != ""
    ensures var x := HandleCompanion(req, true, chat, service);
      && x.imageCall == Some(AuxPrompt(x.response.imagePrompt))
      && x.response.image == AuxImage(service(AuxPrompt(x.response.imagePrompt)))
  {
  }

  /** A reply with no tag is shown whole, with an empty image prompt and no image call. */
  lemma UntaggedReplyUnchanged(
    req: CompanionRequest, hasToken: bool, chat: ChatCall -> ReplyOutcome, service: string -> AuxOutcome, reply: string)
    requires IsNonEmptyString(req.message) && req.history.Undefined?
    requires forall p: nat, q: nat :: !ValidMatch(reply, p, q)
    requires chat(ChatCall(SystemPrompt(req.persona), [UserTurn(req.message.s)])) == Replied(reply)
    ensures HandleCompanion(req, hasToken, chat, service)
         == CompanionExchange(
              Answered(reply, None, "", req.message.s),
              Some(ChatCall(SystemPrompt(req.persona), [UserTurn(req.message.s)])),
              None)
  {
  }

  /** The conversation sent is the history, in order, and then the new user turn. */
  lemma ConversationSent(
    req: CompanionRequest, hasToken: bool, chat: ChatCall -> ReplyOutcome, service: string -> AuxOutcome)
    requires req.history.Arr?
    requires HandleCompanion(req, hasToken, chat, service).response.Answered?
    ensures var msgs := HandleCompanion(req, hasToken, chat, service).chatCall.value.messages;
      && |msgs| == |req.history.items| + 1
      && (forall i :: 0 <= i < |req.history.items| ==> ProjectEntry(req.history.items[i]) == Some(msgs[i]))
      && msgs[|req.history.items|] == UserTurn(req.message.s)
  {
  }

  // ---------------------------------------------------------------------------
  // Worked examples of the extraction

  /** Sufficient conditions for a match to be the one reported: no earlier tag, and no space after `\s*`. */
  lemma FirstTagMatch(s: string, p: nat, q: nat)
    requires ValidMatch(s, p, q)
    requires forall k :: 0 <= k < p ==> s[k] != '['
    requires q == |s| || !IsJsSpace(s[q])
    ensures FindImageTag(s) == Some(TagMatch(p, q, LineEnd(s, q), MatchEnd(s, q)))
  {
    forall p': nat | p' < p
      ensures !MatchesAt(s, p')
    {
      assert AsciiUpper(s[p']) != Tag[0];
    }
    forall q': nat | q < q'
      ensures !ValidMatch(s, p, q')
    {
    }
    assert IsReportedMatch(s, p, q);
    var m := FindImageTag(s).value;
    ReportedMatchUnique(s, p, q, m.start, m.capStart);
  }

  /** What the route shows and asks for, given the reported match. */
  lemma ExtractAtFirstTag(s: string, p: nat, q: nat)
    requires ValidMatch(s, p, q)
    requires forall k :: 0 <= k < p ==> s[k] != '['
    requires q == |s| || !IsJsSpace(s[q])
    ensures ExtractImagePrompt(s) == Extraction(Trim(s[..p] + s[MatchEnd(s, q)..]), Trim(s[q..LineEnd(s, q)]))
  {
    FirstTagMatch(s, p, q);
    ExtractAtReportedMatch(s, p, q);
  }

  /** A single-line prompt with no whitespace at either end. */
  predicate CleanLine(prompt: string) {
    |prompt| > 0 && NoLineTerminator(prompt) && !IsJsSpace(prompt[0]) && !IsJsSpace(prompt[|prompt| - 1])
  }

  /** The usual reply, text and then a tag line: the tag line is cut off and its prompt extracted. */
  lemma ExtractTrailingTagLine(text: string, prompt: string)
    requires '[' !in text && CleanLine(prompt)
    ensures ExtractImagePrompt(text + "\n[IMAGE]: " + prompt) == Extraction(Trim(text + "\n"), prompt)
  {
    var s := text + "\n[IMAGE]: " + prompt;
    var p := |text| + 1;
    var q := p + 9;
    assert s[..p] + s[|s|..] == text + "\n";
    assert s[q..|s|] == prompt;
    assert s[p..q] == "[IMAGE]: ";
    LineEndAt(s, q, |s|);
    assert TagAt(s, p);
    assert ValidMatch(s, p, q);
    assert forall k :: 0 <= k < p ==> s[k] != '[' by {
      forall k | 0 <= k < p
        ensures s[k] != '['
      {
        if k < |text| {
          assert s[k] == text[k];
        }
      }
    }
    ExtractAtFirstTag(s, p, q);
    TrimUnchanged(prompt);
  }

  /** The tag matches in lower case, and `\s*` carries the prompt over a line break. */
  lemma ExtractLowerCaseTagOverLineBreak(prompt: string)
    requires CleanLine(prompt)
    ensures ExtractImagePrompt("[image]:\n" + prompt) == Extraction("", prompt)
  {
    var s := "[image]:\n" + prompt;
    assert s[..0] + s[|s|..] == "";
    assert s[9..|s|] == prompt;
    assert s[..9] == "[image]:\n";
    LineEndAt(s, 9, |s|);
    assert TagAt(s, 0);
    assert ValidMatch(s, 0, 9);
    ExtractAtFirstTag(s, 0, 9);
    TrimUnchanged(prompt);
    TrimUnchanged("");
  }

  /** Where the first of two tag lines matches, and what is left once it is cut out. */
  lemma FirstOfTwoTagLines(first: string, second: string)
    requires CleanLine(first)
    ensures var s := ("[IMAGE]: " + first + "\n") + ("[IMAGE]: " + second);
      && ValidMatch(s, 0, 9)
      && LineEnd(s, 9) == 9 + |first| && MatchEnd(s, 9) == 10 + |first|
      && s[9..9 + |first|] == first
      && s[..0] + s[10 + |first|..] == "[IMAGE]: " + second
  {
    var line := "[IMAGE]: " + first + "\n";
    var rest := "[IMAGE]: " + second;
    var s := line + rest;
    var e := 9 + |first|;
    assert s[..0] + s[e + 1..] == rest by {
      assert s[|line|..] == rest;
    }
    assert s[9..e] == first;
    assert s[..9] == "[IMAGE]: ";
    assert s[e] == '\n';
    LineEndAt(s, 9, e);
    assert TagAt(s, 0);
  }

  /** Only the first tag line is removed; a second tag stays in the visible text. */
  lemma OnlyFirstTagRemoved(first: string, second: string)
    requires CleanLine(first) && CleanLine(second)
    ensures ExtractImagePrompt(("[IMAGE]: " + first + "\n") + ("[IMAGE]: " + second))
         == Extraction("[IMAGE]: " + second, first)
  {
    var rest := "[IMAGE]: " + second;
    assert rest[|rest| - 1] == second[|second| - 1];
    TrimUnchanged(rest);
    TrimUnchanged(first);
    var s := ("[IMAGE]: " + first + "\n") + rest;
    FirstOfTwoTagLines(first, second);
    assert s[9] == first[0];
    ExtractAtFirstTag(s, 0, 9);
  }

  /**
   * A tag line ended by a carriage return does not match: `.` stops at the
   * `\r` and neither `\n` nor the end of input follows, so the reply is shown
   * whole, tag included, and no image prompt is extracted.
   */
  lemma CarriageReturnTagNotMatched(prompt: string, rest: string)
    requires CleanLine(prompt) && '[' !in prompt && '[' !in rest
    ensures var s := "[IMAGE]: " + prompt + "\r\n" + rest;
      ExtractImagePrompt(s) == Extraction(s, "")
  {
    var s := "[IMAGE]: " + prompt + "\r\n" + rest;
    var e := 9 + |prompt|;
    assert s[..9] == "[IMAGE]: ";
    assert s[9..e] == prompt;
    assert s[e] == '\r';
    assert s[8..e] == " " + prompt;
    LineEndAt(s, 8, e);
    LineEndAt(s, 9, e);
    forall p: nat, q: nat
      ensures !ValidMatch(s, p, q)
    {
      if 0 < p < |s| {
        if p < 9 {
          assert s[p] in "IMAGE]: ";
        } else if p < e {
          assert s[p] == prompt[p - 9];
        } else if e + 1 < p {
          assert s[p] == rest[p - e - 2];
        }
        assert AsciiUpper(s[p]) != Tag[0];
      }
    }
  }

  /** An image is only ever attached when the reply carried a tag with a non-empty prompt. */
  lemma ImageNeedsTag(
    req: CompanionRequest, hasToken: bool, chat: ChatCall -> ReplyOutcome, service: string -> AuxOutcome)
    requires HandleCompanion(req, hasToken, chat, service).imageCall.Some?
    ensures var x := HandleCompanion(req, hasToken, chat, service);
      && x.response.Answered? && x.response.imagePrompt != ""
      && chat(x.chatCall.value).Replied?
      && exists p: nat, q: nat :: ValidMatch(chat(x.chatCall.value).text, p, q)
  {
  }
}
