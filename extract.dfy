/** Turning one search result into a contact: `extractLinkedInContact` for
    LinkedIn profile results and `extractWebsiteContact` for company team,
    about and owner pages. */
module Extract {
  import opened Text
  import opened Scan
  import opened Size
  import opened Patterns
  import opened Records

  /** `company.estimatedSize || estimateCompanySize(snippet)`. */
  function ContactSize(company: Company, snippet: string): (s: Option<SizeBucket>)
    ensures company.estimatedSize.Some? ==> s == company.estimatedSize
    ensures company.estimatedSize.None? ==> s == EstimateCompanySize(snippet)
  {
    if company.estimatedSize.Some? then company.estimatedSize else EstimateCompanySize(snippet)
  }

  /** The job title of a LinkedIn result title: the first dash group,
      with an "at Company" tail removed. */
  function LinkedInJobTitle(title: string): (r: Option<string>)
    ensures r.Some? <==> DashTitle(title).Some?
  {
    match DashTitle(title)
    case None => None
    case Some(t) => Some(StripAtSuffix(t))
  }

  /** The name a LinkedIn result title yields, when it is accepted: present,
      at least two UTF-16 units long and not containing "LinkedIn". */
  predicate AcceptedName(name: Option<string>) {
    name.Some? && Utf16Length(name.value) >= 2 && !Contains(name.value, "LinkedIn")
  }

  /** `extractLinkedInContact`: only profile links ("linkedin.com/in/")
      give a contact, and only when the title's leading text is an accepted
      name. The profile link becomes the contact's LinkedIn URL; phone and
      website come from the company. */
  function ExtractLinkedInContact(result: SearchResult, company: Company, industry: string, location: string): (r: Option<Contact>)
    ensures r.Some? ==> Contains(OrEmpty(result.link), "linkedin.com/in/")
    ensures r.Some? <==> Contains(OrEmpty(result.link), "linkedin.com/in/") && AcceptedName(LeadingName(result.title))
    ensures r.Some? ==> r.value.linkedinUrl == Some(OrEmpty(result.link)) && r.value.info.source == LinkedInSearch
    ensures r.Some? ==> r.value.info.snippet == Some(OrEmpty(result.snippet)) && r.value.info.foundOn.None?
    ensures r.Some? ==> Utf16Length(r.value.contactName) >= 2 && !Contains(r.value.contactName, "LinkedIn")
    ensures r.Some? ==> Some(r.value.contactName) == LeadingName(result.title)
    ensures r.Some? ==> r.value.jobTitle == LinkedInJobTitle(result.title)
    ensures r.Some? ==> r.value.companyName == company.name && r.value.phone == company.phone && r.value.website == company.website
    ensures r.Some? ==> r.value.industry == industry && r.value.location == location
    ensures r.Some? ==> r.value.email == FindEmail(OrEmpty(result.snippet))
    ensures r.Some? ==> r.value.companySize == ContactSize(company, OrEmpty(result.snippet))
  {
    var link := OrEmpty(result.link);
    var snippet := OrEmpty(result.snippet);
    if !Contains(link, "linkedin.com/in/") then None
    else
      var name := LeadingName(result.title);
      if !AcceptedName(name) then None
      else
        Some(Contact(company.name, name.value, LinkedInJobTitle(result.title), FindEmail(snippet), company.phone,
                     Some(link), company.website, industry, location, ContactSize(company, snippet),
                     Info(LinkedInSearch, Some(snippet), None)))
  }

  /** A LinkedIn contact's name holds no separator and no surrounding white
      space: it is the trimmed text before the title's first separator. */
  lemma LinkedInNameShape(result: SearchResult, company: Company, industry: string, location: string)
    requires ExtractLinkedInContact(result, company, industry, location).Some?
    ensures var n := ExtractLinkedInContact(result, company, industry, location).value.contactName;
      n != [] && !IsSpace(n[0]) && !IsSpace(n[|n| - 1]) && forall i :: 0 <= i < |n| ==> !In(n[i], NameSep)
  {
    LeadingNameShape(result.title);
  }

  /** The name of a LinkedIn contact is the trimmed text before the title's
      first separator. */
  lemma LinkedInNameValue(result: SearchResult, company: Company, industry: string, location: string, k: nat)
    requires ExtractLinkedInContact(result, company, industry, location).Some?
    requires FirstSeparatorAt(result.title, k)
    ensures 0 < k && ExtractLinkedInContact(result, company, industry, location).value.contactName
      == Trim(result.title[..k])
  {
    LeadingNameBeforeSeparator(result.title, k);
  }

  /** The job title of a LinkedIn result is the trimmed text between the
      first dash and the next separator (or the end), with an "at Company"
      tail removed. */
  lemma LinkedInJobTitleValue(title: string, i: nat, k: nat)
    requires i < |title| && In(title[i], Dash) && forall j :: 0 <= j < i ==> !In(title[j], Dash)
    requires 0 < k && FirstSeparatorAt(title[i + 1..], k)
    ensures LinkedInJobTitle(title) == Some(StripAtSuffix(Trim(title[i + 1..i + 1 + k])))
  {
    var t := title[i..];
    assert t[1..] == title[i + 1..];
    assert DashTitleAt(t) == Some(Trim(title[i + 1..i + 1 + k])) by {
      DashTitleBeforeSeparator(t, k);
      assert t[1..1 + k] == title[i + 1..i + 1 + k];
    }
    forall j | 0 <= j < i ensures DashTitleAt(title[j..]).None? {
      assert title[j..][0] == title[j];
    }
    var hit := Leftmost(title, DashTitleAt).value;
    assert hit.0 == i;
  }

  /** The generic mailbox prefixes the e-mail fallback refuses. */
  predicate GenericMailbox(email: string) {
    Contains(email, "info@") || Contains(email, "contact@") || Contains(email, "support@")
  }

  /** `phoneMatch ? phoneMatch[1] : company.phone`. */
  function WebsitePhone(snippet: string, company: Company): (p: Option<string>)
    ensures FindPhone(snippet).Some? ==> p == FindPhone(snippet)
    ensures FindPhone(snippet).None? ==> p == company.phone
  {
    if FindPhone(snippet).Some? then FindPhone(snippet) else company.phone
  }

  /** `extractWebsiteContact`: a name with a title in the snippet gives a
      `website_search` contact; failing that, an e-mail address that is not
      a generic mailbox and whose local part splits into at least two
      pieces gives an `email_extraction` contact named after it; otherwise
      there is no contact. Such contacts never carry a LinkedIn URL. */
  function ExtractWebsiteContact(result: SearchResult, company: Company, industry: string, location: string): (r: Option<Contact>)
    ensures r.Some? ==> r.value.linkedinUrl.None? && r.value.info.foundOn == Some(OrEmpty(result.link))
    ensures r.Some? ==> r.value.companyName == company.name && r.value.website == company.website
    ensures r.Some? ==> r.value.industry == industry && r.value.location == location
    ensures r.Some? ==> r.value.email == FindEmail(OrEmpty(result.snippet))
    ensures r.Some? ==> r.value.phone == WebsitePhone(OrEmpty(result.snippet), company)
    ensures r.Some? ==> r.value.companySize == ContactSize(company, OrEmpty(result.snippet))
    ensures FindNameTitle(OrEmpty(result.snippet)).Some? ==>
      r.Some? && r.value.info.source == WebsiteSearch && r.value.jobTitle.Some?
    ensures r.Some? && r.value.info.source == WebsiteSearch ==>
      var nt := FindNameTitle(OrEmpty(result.snippet));
      nt.Some? && r.value.contactName == nt.value.name && r.value.jobTitle == Some(nt.value.title)
    ensures r.Some? && r.value.info.source == WebsiteSearch ==> r.value.info.snippet == Some(OrEmpty(result.snippet))
    ensures r.Some? && r.value.info.source == EmailExtraction ==>
      FindNameTitle(OrEmpty(result.snippet)).None? && r.value.jobTitle.None? && r.value.info.snippet.None?
      && r.value.email.Some? && !GenericMailbox(r.value.email.value)
      && HasLocalSep(BeforeFirst(r.value.email.value, '@'))
      && NameFromEmail(r.value.email.value) == Some(r.value.contactName)
    ensures r.Some? ==> r.value.info.source != LinkedInSearch
  {
    var snippet := OrEmpty(result.snippet);
    var link := OrEmpty(result.link);
    var email := FindEmail(snippet);
    var phone := WebsitePhone(snippet, company);
    var size := ContactSize(company, snippet);
    match FindNameTitle(snippet)
    case Some(nt) =>
      Some(Contact(company.name, nt.name, Some(nt.title), email, phone, None, company.website,
                   industry, location, size, Info(WebsiteSearch, Some(snippet), Some(link))))
    case None =>
      if Truthy(email) && !GenericMailbox(email.value) then
        match NameFromEmail(email.value)
        case Some(name) =>
          Some(Contact(company.name, name, None, email, phone, None, company.website,
                       industry, location, size, Info(EmailExtraction, None, Some(link))))
        case None => None
      else None
  }

  /** The e-mail fallback is taken exactly when no name pattern matches and
      the address found is personal: not generic and split by `.`, `_` or `-`. */
  lemma EmailFallbackExactly(result: SearchResult, company: Company, industry: string, location: string)
    ensures var snippet := OrEmpty(result.snippet);
      var r := ExtractWebsiteContact(result, company, industry, location);
      (r.Some? && r.value.info.source == EmailExtraction) <==>
        FindNameTitle(snippet).None? && FindEmail(snippet).Some? && !GenericMailbox(FindEmail(snippet).value)
        && HasLocalSep(BeforeFirst(FindEmail(snippet).value, '@'))
  {
  }

  /** A website contact found by the name patterns is named by two words:
      two letter runs of at least two letters with white space between. */
  lemma WebsiteNameIsTwoWords(result: SearchResult, company: Company, industry: string, location: string)
    returns (a: nat, g: nat)
    requires ExtractWebsiteContact(result, company, industry, location).Some?
    requires ExtractWebsiteContact(result, company, industry, location).value.info.source == WebsiteSearch
    ensures var name := ExtractWebsiteContact(result, company, industry, location).value.contactName;
      a + g + 2 <= |name| && TwoWords(name, a, g, |name| - a - g)
  {
    a, g := NameIsTwoWords(OrEmpty(result.snippet));
  }

  /** A website contact's job title, when it has one, is a vocabulary word
      (CEO, CTO, CFO, COO, Founder, Owner, President, Director, Manager, VP
      or Vice President) in some letter case. */
  lemma WebsiteTitleInVocabulary(result: SearchResult, company: Company, industry: string, location: string)
    returns (k: nat)
    requires ExtractWebsiteContact(result, company, industry, location).Some?
    requires ExtractWebsiteContact(result, company, industry, location).value.jobTitle.Some?
    ensures k < |TitleWords|
    ensures Lower(ExtractWebsiteContact(result, company, industry, location).value.jobTitle.value) == TitleWords[k]
  {
    k := TitleFromVocabulary(OrEmpty(result.snippet));
  }
}
