/** `findCompanyContacts`: up to three searches about one company, each
    feeding its results through an extractor into one growing contact
    list. A search that throws or fails contributes nothing. */
module Contacts {
  import opened Text
  import opened Records
  import opened Extract

  // The three queries, with their result counts.

  function LinkedInQuery(company: string, location: string): string {
    "site:linkedin.com/in \"" + company + "\" " + location
  }

  function TeamQuery(hostname: string): string {
    "site:" + hostname + " (team OR about OR contact OR leadership) email"
  }

  function OwnerQuery(company: string, location: string): string {
    "\"" + company + "\" " + location + " (owner OR CEO OR founder OR president) contact"
  }

  const LinkedInCount := 10
  const TeamCount := 5
  const OwnerCount := 5

  /** The search service: a query and a result count in, a response out. */
  type Search = (string, nat) -> Fetch<SearchResult>

  /** `new URL(s)`: `None` where the constructor throws. */
  type ParseUrl = string -> Option<Url>

  /** One of the two extractors, applied to the company at hand. */
  type Extractor = SearchResult -> Option<Contact>

  function LinkedInExtractor(company: Company, industry: string, location: string): Extractor {
    r => ExtractLinkedInContact(r, company, industry, location)
  }

  function WebsiteExtractor(company: Company, industry: string, location: string): Extractor {
    r => ExtractWebsiteContact(r, company, industry, location)
  }

  // ---------------------------------------------------------------------
  // The specification of each channel, as a fold over its results.

  predicate HasName(contacts: seq<Contact>, name: string) {
    exists i :: 0 <= i < |contacts| && contacts[i].contactName == name
  }

  /** `c.contact_name === contact.contact_name || (c.email && c.email === contact.email)`
      for some contact already listed. */
  predicate Clashes(contacts: seq<Contact>, x: Contact) {
    exists i :: 0 <= i < |contacts| &&
      (contacts[i].contactName == x.contactName || (Truthy(contacts[i].email) && contacts[i].email == x.email))
  }

  /** The LinkedIn channel after the results `rs`, starting from `acc`:
      a contact is added when its name is not yet listed. */
  function LinkedInPass(acc: seq<Contact>, rs: seq<SearchResult>, ext: Extractor): seq<Contact>
  {
    if rs == [] then acc
    else
      var before := LinkedInPass(acc, rs[..|rs| - 1], ext);
      match ext(rs[|rs| - 1])
      case Some(x) => if HasName(before, x.contactName) then before else before + [x]
      case None => before
  }

  /** The website channel after the results `rs`, starting from `acc`: a
      contact is added unless its name, or its truthy e-mail, is listed. */
  function WebsitePass(acc: seq<Contact>, rs: seq<SearchResult>, ext: Extractor): seq<Contact>
  {
    if rs == [] then acc
    else
      var before := WebsitePass(acc, rs[..|rs| - 1], ext);
      match ext(rs[|rs| - 1])
      case Some(x) => if Clashes(before, x) then before else before + [x]
      case None => before
  }

  /** The owner channel: the first result that yields a website contact. */
  function OwnerPick(rs: seq<SearchResult>, ext: Extractor): (r: Option<Contact>)
    ensures r.Some? ==> exists i :: (0 <= i < |rs| && ext(rs[i]) == r
      && forall j :: 0 <= j < i ==> ext(rs[j]).None?)
    ensures r.None? <==> forall i :: 0 <= i < |rs| ==> ext(rs[i]).None?
  {
    if rs == [] then None
    else match ext(rs[0])
      case Some(x) => Some(x)
      case None =>
        var r := OwnerPick(rs[1..], ext);
        assert forall i :: 1 <= i < |rs| ==> rs[1..][i - 1] == rs[i];
        if r.Some? then
          var i :| 0 <= i < |rs[1..]| && ext(rs[1..][i]) == r && forall j :: 0 <= j < i ==> ext(rs[1..][j]).None?;
          assert ext(rs[i + 1]) == r && forall j :: 0 <= j < i + 1 ==> ext(rs[j]).None?;
          r
        else r
  }

  /** The host name the website channel searches, when the company's
      website is truthy and parses as a URL. */
  function TeamHost(company: Company, parseUrl: ParseUrl): (h: Option<string>)
    ensures h.Some? ==> Truthy(company.website) && parseUrl(company.website.value).Some?
    ensures Truthy(company.website) && parseUrl(company.website.value).Some? ==>
      h == Some(parseUrl(company.website.value).value.hostname)
  {
    if Truthy(company.website) then
      match parseUrl(company.website.value)
      case Some(u) => Some(u.hostname)
      case None => None
    else None
  }

  /** The contacts after the LinkedIn and website channels, with `li` and
      `site` standing for the two extractors applied to the company. */
  function FirstTwoChannels(company: Company, location: string, search: Search, parseUrl: ParseUrl,
                            li: Extractor, site: Extractor): seq<Contact> {
    var linked := LinkedInPass([], Items(search(LinkedInQuery(company.name, location), LinkedInCount)), li);
    match TeamHost(company, parseUrl)
    case None => linked
    case Some(host) => WebsitePass(linked, Items(search(TeamQuery(host), TeamCount)), site)
  }

  /** The first two channels, and the owner channel's single pick only
      when they found nobody. */
  function Channels(company: Company, location: string, search: Search, parseUrl: ParseUrl,
                    li: Extractor, site: Extractor): seq<Contact> {
    var two := FirstTwoChannels(company, location, search, parseUrl, li, site);
    if two != [] then two
    else match OwnerPick(Items(search(OwnerQuery(company.name, location), OwnerCount)), site)
      case Some(x) => [x]
      case None => []
  }

  /** What `findCompanyContacts` returns for a company. */
  function CompanyContacts(company: Company, industry: string, location: string, search: Search, parseUrl: ParseUrl): seq<Contact> {
    Channels(company, location, search, parseUrl,
             LinkedInExtractor(company, industry, location), WebsiteExtractor(company, industry, location))
  }

  // ---------------------------------------------------------------------
  // The route's loops.

  /** `findCompanyContacts`. */
  method FindCompanyContacts(company: Company, industry: string, location: string, search: Search, parseUrl: ParseUrl)
    returns (contacts: seq<Contact>)
    ensures contacts == CompanyContacts(company, industry, location, search, parseUrl)
  {
    contacts := RunChannels(company, location, search, parseUrl,
                            LinkedInExtractor(company, industry, location), WebsiteExtractor(company, industry, location));
  }

  /** The three channels, with the extractors `li` and `site`. */
  method RunChannels(company: Company, location: string, search: Search, parseUrl: ParseUrl, li: Extractor, site: Extractor)
    returns (contacts: seq<Contact>)
    ensures contacts == Channels(company, location, search, parseUrl, li, site)
  {
    contacts := LinkedInLoop([], Items(search(LinkedInQuery(company.name, location), LinkedInCount)), li);
    var host := TeamHost(company, parseUrl);
    if host.Some? {
      contacts := WebsiteLoop(contacts, Items(search(TeamQuery(host.value), TeamCount)), site);
    }
    if |contacts| == 0 {
      var pick := OwnerLoop(Items(search(OwnerQuery(company.name, location), OwnerCount)), site);
      if pick.Some? {
        contacts := [pick.value];
      }
    }
  }

  /** The LinkedIn channel's loop: push each extracted contact whose name is new. */
  method LinkedInLoop(acc: seq<Contact>, rs: seq<SearchResult>, li: Extractor) returns (contacts: seq<Contact>)
    ensures contacts == LinkedInPass(acc, rs, li)
  {
    contacts := acc;
    var i := 0;
    while i < |rs|
      invariant 0 <= i <= |rs|
      invariant contacts == LinkedInPass(acc, rs[..i], li)
    {
      assert rs[..i + 1][..i] == rs[..i];
      var contact := li(rs[i]);
      if contact.Some? && !HasName(contacts, contact.value.contactName) {
        contacts := contacts + [contact.value];
      }
      i := i + 1;
    }
    assert rs[..i] == rs;
  }

  /** The website channel's loop: push each extracted contact that clashes
      with none listed. */
  method WebsiteLoop(acc: seq<Contact>, rs: seq<SearchResult>, site: Extractor) returns (contacts: seq<Contact>)
    ensures contacts == WebsitePass(acc, rs, site)
  {
    contacts := acc;
    var j := 0;
    while j < |rs|
      invariant 0 <= j <= |rs|
      invariant contacts == WebsitePass(acc, rs[..j], site)
    {
      assert rs[..j + 1][..j] == rs[..j];
      var contact := site(rs[j]);
      if contact.Some? && !Clashes(contacts, contact.value) {
        contacts := contacts + [contact.value];
      }
      j := j + 1;
    }
    assert rs[..j] == rs;
  }

  /** The owner channel's loop: stop at the first result that yields a contact. */
  method OwnerLoop(rs: seq<SearchResult>, site: Extractor) returns (pick: Option<Contact>)
    ensures pick == OwnerPick(rs, site)
  {
    var k := 0;
    while k < |rs|
      invariant 0 <= k <= |rs|
      invariant OwnerPick(rs, site) == OwnerPick(rs[k..], site)
    {
      assert rs[k..][1..] == rs[k + 1..];
      var contact := site(rs[k]);
      if contact.Some? {
        return contact;
      }
      k := k + 1;
    }
    return None;
  }

  // ---------------------------------------------------------------------
  // Properties of the channels.

  predicate NamesDistinct(contacts: seq<Contact>) {
    forall i, j :: 0 <= i < j < |contacts| ==> contacts[i].contactName != contacts[j].contactName
  }

  /** Each channel only appends: what was listed before stays, in order. */
  lemma {:induction false} LinkedInPassExtends(acc: seq<Contact>, rs: seq<SearchResult>, ext: Extractor)
    ensures acc <= LinkedInPass(acc, rs, ext)
    ensures |LinkedInPass(acc, rs, ext)| <= |acc| + |rs|
  {
    if rs != [] {
      LinkedInPassExtends(acc, rs[..|rs| - 1], ext);
    }
  }

  lemma {:induction false} WebsitePassExtends(acc: seq<Contact>, rs: seq<SearchResult>, ext: Extractor)
    ensures acc <= WebsitePass(acc, rs, ext)
    ensures |WebsitePass(acc, rs, ext)| <= |acc| + |rs|
  {
    if rs != [] {
      WebsitePassExtends(acc, rs[..|rs| - 1], ext);
    }
  }

  /** Neither channel lists one name twice, provided the list it starts from does not. */
  lemma {:induction false} LinkedInPassDistinct(acc: seq<Contact>, rs: seq<SearchResult>, ext: Extractor)
    requires NamesDistinct(acc)
    ensures NamesDistinct(LinkedInPass(acc, rs, ext))
  {
    if rs != [] {
      LinkedInPassDistinct(acc, rs[..|rs| - 1], ext);
    }
  }

  lemma {:induction false} WebsitePassDistinct(acc: seq<Contact>, rs: seq<SearchResult>, ext: Extractor)
    requires NamesDistinct(acc)
    ensures NamesDistinct(WebsitePass(acc, rs, ext))
  {
    if rs != [] {
      WebsitePassDistinct(acc, rs[..|rs| - 1], ext);
      var before := WebsitePass(acc, rs[..|rs| - 1], ext);
      match ext(rs[|rs| - 1])
      case Some(x) =>
        if !Clashes(before, x) {
          assert forall i :: 0 <= i < |before| ==> before[i].contactName != x.contactName;
        }
      case None =>
    }
  }

  /** The website channel never adds a contact whose truthy e-mail is
      already listed on a contact that came before it. */
  lemma {:induction false} WebsitePassNewEmails(acc: seq<Contact>, rs: seq<SearchResult>, ext: Extractor)
    ensures var out := WebsitePass(acc, rs, ext);
      forall i, j :: 0 <= i < j < |out| && |acc| <= j && Truthy(out[i].email) ==> out[i].email != out[j].email
  {
    if rs != [] {
      WebsitePassNewEmails(acc, rs[..|rs| - 1], ext);
      WebsitePassExtends(acc, rs[..|rs| - 1], ext);
    }
  }

  /** Every contact a channel adds is one the channel's extractor built
      from one of its results (the `i`-th). */
  lemma {:induction false} LinkedInPassSource(acc: seq<Contact>, rs: seq<SearchResult>, ext: Extractor, j: nat) returns (i: nat)
    requires |acc| <= j < |LinkedInPass(acc, rs, ext)|
    ensures i < |rs| && ext(rs[i]) == Some(LinkedInPass(acc, rs, ext)[j])
  {
    var init := rs[..|rs| - 1];
    LinkedInPassExtends(acc, init, ext);
    if j < |LinkedInPass(acc, init, ext)| {
      i := LinkedInPassSource(acc, init, ext, j);
      assert rs[i] == init[i];
    } else {
      i := |rs| - 1;
    }
  }

  lemma {:induction false} WebsitePassSource(acc: seq<Contact>, rs: seq<SearchResult>, ext: Extractor, j: nat) returns (i: nat)
    requires |acc| <= j < |WebsitePass(acc, rs, ext)|
    ensures i < |rs| && ext(rs[i]) == Some(WebsitePass(acc, rs, ext)[j])
  {
    var init := rs[..|rs| - 1];
    WebsitePassExtends(acc, init, ext);
    if j < |WebsitePass(acc, init, ext)| {
      i := WebsitePassSource(acc, init, ext, j);
      assert rs[i] == init[i];
    } else {
      i := |rs| - 1;
    }
  }

  /** A contact is about the company at hand, in the requested industry
      and location, and carries the company's website. */
  predicate About(c: Contact, company: Company, industry: string, location: string) {
    c.companyName == company.name && c.industry == industry && c.location == location
    && c.website == company.website
  }

  /** The channels never list one name twice. */
  lemma ChannelsDistinct(company: Company, location: string, search: Search, parseUrl: ParseUrl, li: Extractor, site: Extractor)
    ensures NamesDistinct(Channels(company, location, search, parseUrl, li, site))
  {
    var rs := Items(search(LinkedInQuery(company.name, location), LinkedInCount));
    LinkedInPassDistinct([], rs, li);
    match TeamHost(company, parseUrl)
    case None =>
    case Some(host) =>
      WebsitePassDistinct(LinkedInPass([], rs, li), Items(search(TeamQuery(host), TeamCount)), site);
  }

  /** `findCompanyContacts` never returns two contacts with the same name. */
  lemma CompanyContactsDistinct(company: Company, industry: string, location: string, search: Search, parseUrl: ParseUrl)
    ensures NamesDistinct(CompanyContacts(company, industry, location, search, parseUrl))
  {
    ChannelsDistinct(company, location, search, parseUrl,
                     LinkedInExtractor(company, industry, location), WebsiteExtractor(company, industry, location));
  }

  /** What each extractor guarantees of the contacts it builds. */
  predicate LinkedInShaped(x: Contact, company: Company, industry: string, location: string) {
    About(x, company, industry, location) && x.linkedinUrl.Some? && x.info.source == LinkedInSearch
  }

  predicate SiteShaped(x: Contact, company: Company, industry: string, location: string) {
    About(x, company, industry, location) && x.linkedinUrl.None? && x.info.source != LinkedInSearch
  }

  lemma LinkedInExtractorFacts(company: Company, industry: string, location: string)
    ensures forall r :: LinkedInExtractor(company, industry, location)(r).Some? ==>
      LinkedInShaped(LinkedInExtractor(company, industry, location)(r).value, company, industry, location)
  {
    forall r | LinkedInExtractor(company, industry, location)(r).Some?
      ensures LinkedInShaped(LinkedInExtractor(company, industry, location)(r).value, company, industry, location)
    {
      var x := ExtractLinkedInContact(r, company, industry, location);
    }
  }

  lemma WebsiteExtractorFacts(company: Company, industry: string, location: string)
    ensures forall r :: WebsiteExtractor(company, industry, location)(r).Some? ==>
      SiteShaped(WebsiteExtractor(company, industry, location)(r).value, company, industry, location)
  {
    forall r | WebsiteExtractor(company, industry, location)(r).Some?
      ensures SiteShaped(WebsiteExtractor(company, industry, location)(r).value, company, industry, location)
    {
      var x := ExtractWebsiteContact(r, company, industry, location);
    }
  }

  /** With extractors that keep to those shapes, the channels' list is
      about the company, and the LinkedIn contacts come first. */
  lemma ChannelsShape(company: Company, industry: string, location: string, search: Search, parseUrl: ParseUrl,
                      li: Extractor, site: Extractor) returns (n: nat)
    requires forall r :: li(r).Some? ==> LinkedInShaped(li(r).value, company, industry, location)
    requires forall r :: site(r).Some? ==> SiteShaped(site(r).value, company, industry, location)
    ensures var out := Channels(company, location, search, parseUrl, li, site);
      n <= |out| &&
      (forall j :: 0 <= j < n ==> LinkedInShaped(out[j], company, industry, location)) &&
      (forall j :: n <= j < |out| ==> SiteShaped(out[j], company, industry, location))
  {
    var rs := Items(search(LinkedInQuery(company.name, location), LinkedInCount));
    var linked := LinkedInPass([], rs, li);
    forall j | 0 <= j < |linked|
      ensures LinkedInShaped(linked[j], company, industry, location)
    {
      var i := LinkedInPassSource([], rs, li, j);
    }
    n := |linked|;
    var two := FirstTwoChannels(company, location, search, parseUrl, li, site);
    if TeamHost(company, parseUrl).Some? {
      var ts := Items(search(TeamQuery(TeamHost(company, parseUrl).value), TeamCount));
      assert two == WebsitePass(linked, ts, site);
      WebsitePassExtends(linked, ts, site);
      forall j | n <= j < |two|
        ensures SiteShaped(two[j], company, industry, location)
      {
        var i := WebsitePassSource(linked, ts, site, j);
      }
    }
    if two == [] {
      n := 0;
      match OwnerPick(Items(search(OwnerQuery(company.name, location), OwnerCount)), site)
      case Some(x) =>
        var os := Items(search(OwnerQuery(company.name, location), OwnerCount));
        var i :| 0 <= i < |os| && site(os[i]) == Some(x);
      case None =>
    }
  }

  /** Every contact found for a company is about that company; the
      LinkedIn channel's contacts carry their profile links and come first,
      and the contacts after them carry none. */
  lemma CompanyContactsShape(company: Company, industry: string, location: string, search: Search, parseUrl: ParseUrl)
    returns (n: nat)
    ensures var out := CompanyContacts(company, industry, location, search, parseUrl);
      n <= |out| &&
      (forall j :: 0 <= j < n ==> LinkedInShaped(out[j], company, industry, location)) &&
      (forall j :: n <= j < |out| ==> SiteShaped(out[j], company, industry, location))
  {
    LinkedInExtractorFacts(company, industry, location);
    WebsiteExtractorFacts(company, industry, location);
    n := ChannelsShape(company, industry, location, search, parseUrl,
                       LinkedInExtractor(company, industry, location), WebsiteExtractor(company, industry, location));
  }

  /** The website channel runs only for a truthy website that parses. */
  lemma WebsiteChannelSkipped(company: Company, location: string, search: Search, parseUrl: ParseUrl, li: Extractor, site: Extractor)
    requires !Truthy(company.website) || parseUrl(company.website.value).None?
    ensures FirstTwoChannels(company, location, search, parseUrl, li, site)
      == LinkedInPass([], Items(search(LinkedInQuery(company.name, location), LinkedInCount)), li)
  {
  }

  /** The owner search adds at most one contact, and only when the other
      two channels found nobody; when they found someone it is not consulted. */
  lemma OwnerChannelRule(company: Company, location: string, search: Search, parseUrl: ParseUrl, li: Extractor, site: Extractor)
    ensures var two := FirstTwoChannels(company, location, search, parseUrl, li, site);
      var out := Channels(company, location, search, parseUrl, li, site);
      (two != [] ==> out == two) && (two == [] ==> |out| <= 1)
  {
  }

  /** A channel whose search throws, fails or lacks results adds nothing. */
  lemma FailedChannelAddsNothing(acc: seq<Contact>, f: Fetch<SearchResult>, ext: Extractor)
    requires !(f.Ok? && f.items.Some?)
    ensures LinkedInPass(acc, Items(f), ext) == acc
    ensures WebsitePass(acc, Items(f), ext) == acc
  {
  }

  /** Where the LinkedIn search fails and the website channel does not
      run, the result is the owner pick alone. */
  lemma {:induction false} NoLinkedInNoSite(company: Company, location: string, search: Search, parseUrl: ParseUrl, li: Extractor, site: Extractor)
    requires !(search(LinkedInQuery(company.name, location), LinkedInCount).Ok?)
    requires !Truthy(company.website)
    ensures Channels(company, location, search, parseUrl, li, site) ==
      match OwnerPick(Items(search(OwnerQuery(company.name, location), OwnerCount)), site)
      case Some(x) => [x]
      case None => []
  {
    FailedChannelAddsNothing([], search(LinkedInQuery(company.name, location), LinkedInCount), li);
  }
}
