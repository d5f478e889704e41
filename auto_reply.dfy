/** The reply filter and reply body of WorkFree.AutoMailer/AutoReplyService.cs.

    Outlook's mail item is a value with an optional subject and sender
    (COM properties that can be null); the configuration lists are
    parameters. Sending, the delay and logging are not part of this model. */
module AutoReply {
  import opened Wrappers
  import opened Strings

  datatype Mail = Mail(subject: Option<string>, sender: Option<string>, htmlBody: string)

  /** The lists `ConfigManager` hands to the filter. */
  datatype Filters = Filters(keywords: seq<string>, allowedDomains: seq<string>, excludedSenders: seq<string>)

  /** `keywords.Any(keyword => subject != null && subject.Contains(keyword))`. */
  function HasKeyword(subject: Option<string>, keywords: seq<string>): (r: bool)
    ensures r <==> subject.Some? && exists i :: 0 <= i < |keywords| && Contains(subject.value, keywords[i])
  {
    if keywords == [] then false
    else (subject.Some? && Contains(subject.value, keywords[0])) || HasKeyword(subject, keywords[1..])
  }

  /** `allowedDomains.Any(domain => sender.EndsWith(domain, OrdinalIgnoreCase))`. */
  function DomainAllowed(sender: string, domains: seq<string>): (r: bool)
    ensures r <==> exists i :: 0 <= i < |domains| && EndsWithIgnoreCase(sender, domains[i])
  {
    if domains == [] then false
    else EndsWithIgnoreCase(sender, domains[0]) || DomainAllowed(sender, domains[1..])
  }

  /** `SenderEmailAddress ?? ""`. */
  function SenderText(mail: Mail): string {
    mail.sender.GetOr("")
  }

  /** `ShouldReply`: a keyword in the subject, then the domain filter when
      there is one, then the exclusion list. */
  function ShouldReply(f: Filters, mail: Mail): bool {
    if !HasKeyword(mail.subject, f.keywords) then false
    else if |f.allowedDomains| > 0 && !DomainAllowed(SenderText(mail), f.allowedDomains) then false
    else if |f.excludedSenders| > 0 && SenderText(mail) in f.excludedSenders then false
    else true
  }

  /** The three conditions together, in both directions. */
  lemma ShouldReplyIff(f: Filters, mail: Mail)
    ensures ShouldReply(f, mail) <==>
              && mail.subject.Some?
              && (exists i :: 0 <= i < |f.keywords| && Contains(mail.subject.value, f.keywords[i]))
              && (f.allowedDomains == [] ||
                  exists i :: 0 <= i < |f.allowedDomains| && EndsWithIgnoreCase(SenderText(mail), f.allowedDomains[i]))
              && SenderText(mail) !in f.excludedSenders
  {
  }

  /** No subject, or no keywords at all, means no reply. */
  lemma NoSubjectOrNoKeywords(f: Filters, mail: Mail)
    requires mail.subject.None? || f.keywords == []
    ensures !ShouldReply(f, mail)
  {
  }

  /** A sender listed verbatim among the excluded ones is never answered. */
  lemma ExcludedNeverAnswered(f: Filters, mail: Mail)
    requires SenderText(mail) in f.excludedSenders
    ensures !ShouldReply(f, mail)
  {
  }

  /** A missing sender is filtered exactly like an empty address. */
  lemma MissingSenderActsAsEmpty(f: Filters, subject: Option<string>, body: string)
    ensures ShouldReply(f, Mail(subject, None, body)) == ShouldReply(f, Mail(subject, Some(""), body))
  {
  }

  lemma {:induction false} UpperIdempotent(s: string)
    ensures MapUpper(MapUpper(s)) == MapUpper(s)
  {
    assert forall i :: 0 <= i < |s| ==> AsciiUpper(AsciiUpper(s[i])) == AsciiUpper(s[i]);
  }

  /** The domain test ignores the letter case of the sender: upper-casing
      the address changes nothing while no sender is excluded (the
      exclusion list itself compares exactly). */
  lemma DomainTestIgnoresCase(f: Filters, mail: Mail)
    requires f.excludedSenders == []
    ensures ShouldReply(f, mail) == ShouldReply(f, mail.(sender := Some(MapUpper(SenderText(mail)))))
  {
    var s := SenderText(mail);
    UpperIdempotent(s);
    forall d | d in f.allowedDomains
      ensures EndsWithIgnoreCase(s, d) == EndsWithIgnoreCase(MapUpper(s), d)
    {
    }
  }

  /** ... whereas the exclusion list is case-sensitive: an excluded
      lower-case address written in capitals gets a reply. */
  lemma ExclusionIsCaseSensitive()
    ensures var f := Filters(["견적"], [], ["boss@corp.com"]);
            && !ShouldReply(f, Mail(Some("견적 요청"), Some("boss@corp.com"), ""))
            && ShouldReply(f, Mail(Some("견적 요청"), Some("BOSS@corp.com"), ""))
  {
    var f := Filters(["견적"], [], ["boss@corp.com"]);
    assert MatchAt("견적 요청", "견적", 0);
    ContainsAt("견적 요청", "견적", 0);
    assert "BOSS@corp.com" != "boss@corp.com" by {
      assert "BOSS@corp.com"[0] != "boss@corp.com"[0];
    }
  }

  /** The reply body: the configured template followed by the HTML body
      Outlook put into the reply-all draft. */
  function ReplyBody(template: string, draftHtml: string): (body: string)
    ensures |body| == |template| + |draftHtml|
    ensures body[..|template|] == template && body[|template|..] == draftHtml
  {
    template + draftHtml
  }
}
