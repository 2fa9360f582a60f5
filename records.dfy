/** The records the lead-search route reads from the search service and
    builds for its response, and the search service itself as the route
    sees it: a function from a query and a result count to a response. */
module Records {
  import opened Text
  import opened Size

  /** One organic web result. The title is always present; link and
      snippet are read defensively (`result.link || ''`, `result.link?.`). */
  datatype SearchResult = SearchResult(title: string, link: Option<string>, snippet: Option<string>)

  /** One places (local business) result. */
  datatype PlaceResult = PlaceResult(
    title: string,
    address: Option<string>,
    phone: Option<string>,
    website: Option<string>,
    reviews: Option<int>)

  /** A discovered business. `estimatedSize` holds the bucket whose label
      the route stores; a label is never empty, so a present size is truthy. */
  datatype Company = Company(
    name: string,
    website: Option<string>,
    phone: Option<string>,
    address: Option<string>,
    estimatedSize: Option<SizeBucket>)

  /** Which extraction produced a contact (`additional_info.source`). */
  datatype Source = LinkedInSearch | WebsiteSearch | EmailExtraction

  /** `additional_info`: `snippet` and `found_on` are absent where the route
      leaves the key out. */
  datatype Info = Info(source: Source, snippet: Option<string>, foundOn: Option<string>)

  /** A lead. Every contact the route builds has a name, so `contactName`
      is a plain string. */
  datatype Contact = Contact(
    companyName: string,
    contactName: string,
    jobTitle: Option<string>,
    email: Option<string>,
    phone: Option<string>,
    linkedinUrl: Option<string>,
    website: Option<string>,
    industry: string,
    location: string,
    companySize: Option<SizeBucket>,
    info: Info)

  /** What one call to the search service yields: the request threw (the
      network failed or the body was not JSON), the status was not ok, or
      an ok body whose result list (`organic` or `places`) may be absent. */
  datatype Fetch<T> = Threw | NotOk | Ok(items: Option<seq<T>>)

  /** The results a caller iterates over: none unless the call succeeded
      and the list is present. */
  function Items<T>(f: Fetch<T>): (rs: seq<T>)
    ensures f.Ok? && f.items.Some? ==> rs == f.items.value
    ensures !(f.Ok? && f.items.Some?) ==> rs == []
  {
    match f
    case Ok(Some(items)) => items
    case _ => []
  }

  /** What `new URL(s)` exposes, for a string it accepts. */
  datatype Url = Url(origin: string, hostname: string)

  /** `x || ''` for an optional string. */
  function OrEmpty(s: Option<string>): (r: string)
    ensures Truthy(s) ==> r == s.value
    ensures !Truthy(s) ==> r == ""
  {
    if s.Some? then s.value else ""
  }
}
