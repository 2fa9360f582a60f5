/** The `POST` handler of the lead-search route: validate the request,
    discover companies through a places search and an organic search,
    collect contacts for the first eight companies and keep those that can
    be reached. */
module SearchLeads {
  import opened Text
  import opened Size
  import opened Patterns
  import opened Records
  import opened Contacts

  /** The JSON body, when it could be read: either field may be absent. */
  datatype RequestBody = RequestBody(industry: Option<string>, location: Option<string>)

  /** The handler's answer. */
  datatype Response =
    | Leads(leads: seq<Contact>, total: nat, companiesSearched: nat)
    | MissingApiKey      // "Serper API key not configured"
    | MissingParameters  // "Industry and location are required"
    | SearchFailed       // "Failed to search for leads"

  /** The HTTP status of each answer. */
  function Status(r: Response): (code: nat)
    ensures code == 200 <==> r.Leads?
    ensures code == 400 <==> r.MissingParameters?
    ensures code == 500 <==> r.MissingApiKey? || r.SearchFailed?
  {
    match r
    case Leads(_, _, _) => 200
    case MissingParameters => 400
    case MissingApiKey => 500
    case SearchFailed => 500
  }

  /** The places endpoint of the search service. */
  type Places = (string, nat) -> Fetch<PlaceResult>

  function PlacesQuery(industry: string, location: string): string {
    industry + " in " + location
  }

  function OrganicQuery(industry: string, location: string): string {
    industry + " companies in " + location
  }

  const PlacesCount := 15
  const OrganicCount := 10

  /** Contacts are gathered for at most this many companies. */
  const MaxCompanies := 8

  function Min(a: nat, b: nat): (m: nat)
    ensures m <= a && m <= b && (m == a || m == b)
  {
    if a <= b then a else b
  }

  // ---------------------------------------------------------------------
  // Step 1: companies.

  /** Some company already listed has this name, compared lower-cased. */
  predicate NameTaken(companies: seq<Company>, name: string) {
    exists i :: 0 <= i < |companies| && Lower(companies[i].name) == Lower(name)
  }

  /** A places result as a company: empty strings stored as null, the size
      from the review count. */
  function PlaceCompany(p: PlaceResult): (c: Company)
    ensures c.name == p.title && c.estimatedSize == ReviewBucket(p.reviews)
    ensures c.website.Some? ==> c.website == p.website && c.website.value != ""
    ensures c.phone.Some? ==> c.phone == p.phone && c.phone.value != ""
    ensures c.address.Some? ==> c.address == p.address && c.address.value != ""
    ensures Truthy(p.website) ==> c.website == p.website
    ensures Truthy(p.phone) ==> c.phone == p.phone
    ensures Truthy(p.address) ==> c.address == p.address
  {
    Company(p.title, OrNull(p.website), OrNull(p.phone), OrNull(p.address), ReviewBucket(p.reviews))
  }

  /** The places loop after the results `ps`: a result becomes a company
      unless its name is taken. */
  function PlacesPass(acc: seq<Company>, ps: seq<PlaceResult>): seq<Company> {
    if ps == [] then acc
    else
      var before := PlacesPass(acc, ps[..|ps| - 1]);
      var p := ps[|ps| - 1];
      if NameTaken(before, p.title) then before else before + [PlaceCompany(p)]
  }

  /** `result.link?.includes(...)` for one of the skipped directory and
      social sites. */
  predicate IsAggregator(link: Option<string>) {
    link.Some? &&
      (Contains(link.value, "yelp.com") || Contains(link.value, "yellowpages.com") || Contains(link.value, "linkedin.com")
       || Contains(link.value, "facebook.com") || Contains(link.value, "wikipedia.org"))
  }

  /** `new URL(result.link).origin`, or the raw link where that throws. */
  function WebsiteOf(link: Option<string>, parseUrl: ParseUrl): (w: Option<string>)
    ensures link.None? ==> w.None?
    ensures link.Some? && parseUrl(link.value).Some? ==> w == Some(parseUrl(link.value).value.origin)
    ensures link.Some? && parseUrl(link.value).None? ==> w == link
  {
    match link
    case None => None
    case Some(l) =>
      match parseUrl(l)
      case Some(u) => Some(u.origin)
      case None => Some(l)
  }

  /** An organic result as a company: none for an aggregator link or an
      empty cleaned name; no phone or address; the size from the snippet. */
  function OrganicCompany(r: SearchResult, parseUrl: ParseUrl): (c: Option<Company>)
    ensures c.Some? ==> !IsAggregator(r.link)
    ensures c.Some? ==> c.value.name == CompanyNameFromTitle(r.title) && c.value.name != ""
    ensures c.Some? ==> c.value.phone.None? && c.value.address.None?
    ensures c.Some? ==> c.value.estimatedSize == EstimateCompanySize(OrEmpty(r.snippet))
    ensures c.Some? ==> c.value.website == WebsiteOf(r.link, parseUrl)
    ensures c.None? <==> IsAggregator(r.link) || CompanyNameFromTitle(r.title) == ""
  {
    if IsAggregator(r.link) then None
    else
      var name := CompanyNameFromTitle(r.title);
      if name == "" then None
      else Some(Company(name, WebsiteOf(r.link, parseUrl), None, None, EstimateCompanySize(OrEmpty(r.snippet))))
  }

  type Converter = SearchResult -> Option<Company>

  function OrganicConverter(parseUrl: ParseUrl): Converter {
    r => OrganicCompany(r, parseUrl)
  }

  /** The organic loop after the results `rs`, with `conv` turning a result
      into a company: a company is added unless its name is taken. */
  function OrganicPass(acc: seq<Company>, rs: seq<SearchResult>, conv: Converter): seq<Company> {
    if rs == [] then acc
    else
      var before := OrganicPass(acc, rs[..|rs| - 1], conv);
      match conv(rs[|rs| - 1])
      case Some(c) => if NameTaken(before, c.name) then before else before + [c]
      case None => before
  }

  /** The companies found, or `None` when either search threw (neither is
      caught on its own, so the handler's catch answers). */
  function Discovery(industry: string, location: string, search: Search, places: Places, parseUrl: ParseUrl): Option<seq<Company>> {
    var pf := places(PlacesQuery(industry, location), PlacesCount);
    if pf.Threw? then None
    else
      var of := search(OrganicQuery(industry, location), OrganicCount);
      if of.Threw? then None
      else Some(OrganicPass(PlacesPass([], Items(pf)), Items(of), OrganicConverter(parseUrl)))
  }

  // ---------------------------------------------------------------------
  // Step 2: contacts.

  type Finder = Company -> seq<Contact>

  function ContactsFinder(industry: string, location: string, search: Search, parseUrl: ParseUrl): Finder {
    c => CompanyContacts(c, industry, location, search, parseUrl)
  }

  /** The contacts of the companies `cs`, company by company, in order. */
  function AllContacts(cs: seq<Company>, find: Finder): seq<Contact> {
    if cs == [] then [] else AllContacts(cs[..|cs| - 1], find) + find(cs[|cs| - 1])
  }

  /** `c.linkedin_url || c.email || c.phone`. */
  predicate Reachable(c: Contact) {
    Truthy(c.linkedinUrl) || Truthy(c.email) || Truthy(c.phone)
  }

  /** `filter` with `Reachable`. */
  function Valid(cs: seq<Contact>): seq<Contact> {
    if cs == [] then [] else Valid(cs[..|cs| - 1]) + (if Reachable(cs[|cs| - 1]) then [cs[|cs| - 1]] else [])
  }

  /** The answer for the discovered companies. */
  function LeadsFor(companies: seq<Company>, industry: string, location: string, search: Search, parseUrl: ParseUrl): Response {
    var picked := companies[..Min(MaxCompanies, |companies|)];
    var valid := Valid(AllContacts(picked, ContactsFinder(industry, location, search, parseUrl)));
    Leads(valid, |valid|, |picked|)
  }

  /** What `POST` answers. */
  function SearchLeadsSpec(body: Option<RequestBody>, apiKey: Option<string>, search: Search, places: Places, parseUrl: ParseUrl): Response {
    if body.None? then SearchFailed
    else if !Truthy(apiKey) then MissingApiKey
    else if !Truthy(body.value.industry) || !Truthy(body.value.location) then MissingParameters
    else
      var industry := body.value.industry.value;
      var location := body.value.location.value;
      match Discovery(industry, location, search, places, parseUrl)
      case None => SearchFailed
      case Some(companies) => LeadsFor(companies, industry, location, search, parseUrl)
  }

  // ---------------------------------------------------------------------
  // The handler and its loops.

  /** `POST`: `body` is `None` where `request.json()` throws; `apiKey` is
      the configured key. */
  method SearchLeads(body: Option<RequestBody>, apiKey: Option<string>, search: Search, places: Places, parseUrl: ParseUrl)
    returns (resp: Response)
    ensures resp == SearchLeadsSpec(body, apiKey, search, places, parseUrl)
  {
    if body.None? {
      return SearchFailed;
    }
    if !Truthy(apiKey) {
      return MissingApiKey;
    }
    if !Truthy(body.value.industry) || !Truthy(body.value.location) {
      return MissingParameters;
    }
    var industry := body.value.industry.value;
    var location := body.value.location.value;

    var pf := places(PlacesQuery(industry, location), PlacesCount);
    if pf.Threw? {
      return SearchFailed;
    }
    var companies := PlacesLoop([], Items(pf));
    var of := search(OrganicQuery(industry, location), OrganicCount);
    if of.Threw? {
      return SearchFailed;
    }
    companies := OrganicLoop(companies, Items(of), OrganicConverter(parseUrl));
    assert Discovery(industry, location, search, places, parseUrl) == Some(companies);

    var picked := companies[..Min(MaxCompanies, |companies|)];
    var all := ContactsLoop(picked, industry, location, search, parseUrl);
    var valid := FilterLoop(all);
    resp := Leads(valid, |valid|, |picked|);
  }

  method PlacesLoop(acc: seq<Company>, ps: seq<PlaceResult>) returns (companies: seq<Company>)
    ensures companies == PlacesPass(acc, ps)
  {
    companies := acc;
    var i := 0;
    while i < |ps|
      invariant 0 <= i <= |ps|
      invariant companies == PlacesPass(acc, ps[..i])
    {
      assert ps[..i + 1][..i] == ps[..i];
      if !NameTaken(companies, ps[i].title) {
        companies := companies + [PlaceCompany(ps[i])];
      }
      i := i + 1;
    }
    assert ps[..i] == ps;
  }

  method OrganicLoop(acc: seq<Company>, rs: seq<SearchResult>, conv: Converter) returns (companies: seq<Company>)
    ensures companies == OrganicPass(acc, rs, conv)
  {
    companies := acc;
    var i := 0;
    while i < |rs|
      invariant 0 <= i <= |rs|
      invariant companies == OrganicPass(acc, rs[..i], conv)
    {
      assert rs[..i + 1][..i] == rs[..i];
      var c := conv(rs[i]);
      if c.Some? && !NameTaken(companies, c.value.name) {
        companies := companies + [c.value];
      }
      i := i + 1;
    }
    assert rs[..i] == rs;
  }

  method ContactsLoop(picked: seq<Company>, industry: string, location: string, search: Search, parseUrl: ParseUrl)
    returns (all: seq<Contact>)
    ensures all == AllContacts(picked, ContactsFinder(industry, location, search, parseUrl))
  {
    ghost var find := ContactsFinder(industry, location, search, parseUrl);
    all := [];
    var i := 0;
    while i < |picked|
      invariant 0 <= i <= |picked|
      invariant all == AllContacts(picked[..i], find)
    {
      var contacts := FindCompanyContacts(picked[i], industry, location, search, parseUrl);
      assert contacts == find(picked[i]);
      assert picked[..i + 1][..i] == picked[..i] && picked[..i + 1][i] == picked[i];
      all := all + contacts;
      i := i + 1;
    }
    assert picked[..i] == picked;
  }

  method FilterLoop(all: seq<Contact>) returns (valid: seq<Contact>)
    ensures valid == Valid(all)
  {
    valid := [];
    var i := 0;
    while i < |all|
      invariant 0 <= i <= |all|
      invariant valid == Valid(all[..i])
    {
      assert all[..i + 1][..i] == all[..i];
      if Reachable(all[i]) {
        valid := valid + [all[i]];
      }
      i := i + 1;
    }
    assert all[..i] == all;
  }

  // ---------------------------------------------------------------------
  // Properties.

  /** The request is checked in this order, before any search: an
      unreadable body, then the key, then the two parameters. */
  lemma ValidationOrder(body: Option<RequestBody>, apiKey: Option<string>, search: Search, places: Places, parseUrl: ParseUrl)
    ensures body.None? ==> SearchLeadsSpec(body, apiKey, search, places, parseUrl) == SearchFailed
    ensures body.Some? && !Truthy(apiKey) ==> SearchLeadsSpec(body, apiKey, search, places, parseUrl) == MissingApiKey
    ensures body.Some? && Truthy(apiKey) && (!Truthy(body.value.industry) || !Truthy(body.value.location))
      ==> SearchLeadsSpec(body, apiKey, search, places, parseUrl) == MissingParameters
    ensures SearchLeadsSpec(body, apiKey, search, places, parseUrl).MissingApiKey? ==> !Truthy(apiKey)
    ensures SearchLeadsSpec(body, apiKey, search, places, parseUrl).MissingParameters? ==>
      !Truthy(body.value.industry) || !Truthy(body.value.location)
  {
  }

  /** A discovery search that throws ends the request with the generic
      failure; one that answers with a bad status only contributes nothing. */
  lemma DiscoveryFailures(industry: string, location: string, search: Search, places: Places, parseUrl: ParseUrl)
    ensures places(PlacesQuery(industry, location), PlacesCount).Threw? ==> Discovery(industry, location, search, places, parseUrl).None?
    ensures search(OrganicQuery(industry, location), OrganicCount).Threw? ==> Discovery(industry, location, search, places, parseUrl).None?
    ensures places(PlacesQuery(industry, location), PlacesCount).NotOk? && search(OrganicQuery(industry, location), OrganicCount).NotOk?
      ==> Discovery(industry, location, search, places, parseUrl) == Some([])
  {
  }

  /** No two companies share a name up to letter case. */
  predicate DistinctNames(cs: seq<Company>) {
    forall i, j :: 0 <= i < j < |cs| ==> Lower(cs[i].name) != Lower(cs[j].name)
  }

  lemma {:induction false} PlacesPassDistinct(acc: seq<Company>, ps: seq<PlaceResult>)
    requires DistinctNames(acc)
    ensures DistinctNames(PlacesPass(acc, ps))
  {
    if ps != [] {
      PlacesPassDistinct(acc, ps[..|ps| - 1]);
    }
  }

  lemma {:induction false} OrganicPassDistinct(acc: seq<Company>, rs: seq<SearchResult>, conv: Converter)
    requires DistinctNames(acc)
    ensures DistinctNames(OrganicPass(acc, rs, conv))
  {
    if rs != [] {
      OrganicPassDistinct(acc, rs[..|rs| - 1], conv);
    }
  }

  /** Each pass only appends. */
  lemma {:induction false} PlacesPassExtends(acc: seq<Company>, ps: seq<PlaceResult>)
    ensures acc <= PlacesPass(acc, ps) && |PlacesPass(acc, ps)| <= |acc| + |ps|
  {
    if ps != [] {
      PlacesPassExtends(acc, ps[..|ps| - 1]);
    }
  }

  lemma {:induction false} OrganicPassExtends(acc: seq<Company>, rs: seq<SearchResult>, conv: Converter)
    ensures acc <= OrganicPass(acc, rs, conv) && |OrganicPass(acc, rs, conv)| <= |acc| + |rs|
  {
    if rs != [] {
      OrganicPassExtends(acc, rs[..|rs| - 1], conv);
    }
  }

  /** Every company the organic pass adds is the conversion of one of its results (the `i`-th). */
  lemma {:induction false} OrganicPassSource(acc: seq<Company>, rs: seq<SearchResult>, conv: Converter, j: nat) returns (i: nat)
    requires |acc| <= j < |OrganicPass(acc, rs, conv)|
    ensures i < |rs| && conv(rs[i]) == Some(OrganicPass(acc, rs, conv)[j])
  {
    var init := rs[..|rs| - 1];
    OrganicPassExtends(acc, init, conv);
    if j < |OrganicPass(acc, init, conv)| {
      i := OrganicPassSource(acc, init, conv, j);
      assert rs[i] == init[i];
    } else {
      i := |rs| - 1;
    }
  }

  /** Discovery lists each name once up to letter case, the places
      companies first (`n` of them), and every company after them comes
      from an organic result whose link is no aggregator and whose cleaned
      title is that company's non-empty name. */
  lemma DiscoveryShape(industry: string, location: string, search: Search, places: Places, parseUrl: ParseUrl) returns (n: nat)
    requires Discovery(industry, location, search, places, parseUrl).Some?
    ensures var cs := Discovery(industry, location, search, places, parseUrl).value;
      var ps := Items(places(PlacesQuery(industry, location), PlacesCount));
      var rs := Items(search(OrganicQuery(industry, location), OrganicCount));
      DistinctNames(cs) && n <= |cs| && cs[..n] == PlacesPass([], ps) &&
      forall j :: n <= j < |cs| ==> exists i :: (0 <= i < |rs| && !IsAggregator(rs[i].link)
        && cs[j].name == CompanyNameFromTitle(rs[i].title) && cs[j].name != "")
  {
    var ps := Items(places(PlacesQuery(industry, location), PlacesCount));
    var rs := Items(search(OrganicQuery(industry, location), OrganicCount));
    var conv := OrganicConverter(parseUrl);
    var fromPlaces := PlacesPass([], ps);
    var cs := OrganicPass(fromPlaces, rs, conv);
    PlacesPassDistinct([], ps);
    OrganicPassDistinct(fromPlaces, rs, conv);
    OrganicPassExtends(fromPlaces, rs, conv);
    n := |fromPlaces|;
    forall j | n <= j < |cs|
      ensures exists i :: (0 <= i < |rs| && !IsAggregator(rs[i].link)
        && cs[j].name == CompanyNameFromTitle(rs[i].title) && cs[j].name != "")
    {
      var i := OrganicPassSource(fromPlaces, rs, conv, j);
      assert OrganicCompany(rs[i], parseUrl) == Some(cs[j]);
    }
  }

  /** Filtering distributes over concatenation. */
  lemma {:induction false} ValidAppend(a: seq<Contact>, b: seq<Contact>)
    ensures Valid(a + b) == Valid(a) + Valid(b)
    decreases |b|
  {
    if b == [] {
      assert a + b == a;
    } else {
      assert (a + b)[..|a + b| - 1] == a + b[..|b| - 1];
      ValidAppend(a, b[..|b| - 1]);
    }
  }

  /** The contacts of two runs of companies, one after the other. */
  lemma {:induction false} AllContactsAppend(a: seq<Company>, b: seq<Company>, find: Finder)
    ensures AllContacts(a + b, find) == AllContacts(a, find) + AllContacts(b, find)
    decreases |b|
  {
    if b == [] {
      assert a + b == a;
    } else {
      assert (a + b)[..|a + b| - 1] == a + b[..|b| - 1];
      AllContactsAppend(a, b[..|b| - 1], find);
    }
  }

  /** Leads follow company order: the leads of earlier companies come
      before those of later ones, each company's in the order found. */
  lemma LeadsFollowCompanyOrder(a: seq<Company>, b: seq<Company>, find: Finder)
    ensures Valid(AllContacts(a + b, find)) == Valid(AllContacts(a, find)) + Valid(AllContacts(b, find))
  {
    AllContactsAppend(a, b, find);
    ValidAppend(AllContacts(a, find), AllContacts(b, find));
  }

  /** A contact is kept exactly when it was gathered and can be reached. */
  lemma {:induction false} ValidMembers(cs: seq<Contact>)
    ensures forall x :: x in Valid(cs) <==> x in cs && Reachable(x)
    ensures |Valid(cs)| <= |cs|
  {
    if cs != [] {
      ValidMembers(cs[..|cs| - 1]);
      assert cs == cs[..|cs| - 1] + [cs[|cs| - 1]];
    }
  }

  /** Every gathered contact is one of the contacts found for one of the
      companies (the `k`-th). */
  lemma {:induction false} AllContactsSource(cs: seq<Company>, find: Finder, j: nat) returns (k: nat)
    requires j < |AllContacts(cs, find)|
    ensures k < |cs| && AllContacts(cs, find)[j] in find(cs[k])
  {
    var init := cs[..|cs| - 1];
    if j < |AllContacts(init, find)| {
      k := AllContactsSource(init, find, j);
      assert cs[k] == init[k];
    } else {
      k := |cs| - 1;
      assert AllContacts(cs, find)[j] == find(cs[k])[j - |AllContacts(init, find)|];
    }
  }

  /** The answer: `total` counts the leads, at most eight companies were
      searched (all of them when there were fewer), every lead can be
      reached, and every lead belongs to one of the searched companies. */
  lemma LeadsShape(companies: seq<Company>, industry: string, location: string, search: Search, parseUrl: ParseUrl)
    ensures var r := LeadsFor(companies, industry, location, search, parseUrl);
      r.total == |r.leads| && r.companiesSearched == Min(MaxCompanies, |companies|)
      && (forall x :: x in r.leads ==> Reachable(x))
      && (forall x :: x in r.leads ==>
            exists k :: (0 <= k < r.companiesSearched && x.companyName == companies[k].name
              && x.industry == industry && x.location == location))
  {
    var picked := companies[..Min(MaxCompanies, |companies|)];
    var find := ContactsFinder(industry, location, search, parseUrl);
    var all := AllContacts(picked, find);
    ValidMembers(all);
    forall x | x in Valid(all)
      ensures exists k :: (0 <= k < |picked| && x.companyName == companies[k].name
        && x.industry == industry && x.location == location)
    {
      var j :| 0 <= j < |all| && all[j] == x;
      var k := AllContactsSource(picked, find, j);
      var n := CompanyContactsShape(picked[k], industry, location, search, parseUrl);
      var m :| 0 <= m < |find(picked[k])| && find(picked[k])[m] == x;
      assert About(x, picked[k], industry, location);
    }
  }
}
