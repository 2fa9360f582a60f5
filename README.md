# Lead search, modelled in Dafny

This project models the lead-search route of a small sales-prospecting
application (`src/app/api/search-leads/route.ts`). Given an industry and a
location, the route does four things:

1. It discovers companies through a places search and an organic web search.
2. It looks for contacts at the first eight companies. Each company gets up
   to three searches: LinkedIn profiles, team and about pages on the
   company's own site, and an owner/CEO fallback.
3. It turns each search result into a contact. This uses a set of regular
   expressions over result titles and snippets, plus a size estimate taken
   from the text.
4. It returns the contacts that can be reached: those with a LinkedIn URL,
   an e-mail address or a phone number.

The model keeps the route's own structure:

- `text.dfy` (module `Text`): the JavaScript string operations the route
  relies on. These are `toLowerCase` (ASCII), `trim`, `includes`, truthiness,
  `x || null` and UTF-16 `length`.
- `scan.dfy` (module `Scan`): the pieces every regular expression is built
  from. They cover character classes, maximal runs, keywords under the `i`
  flag, and the leftmost-match search of `String.prototype.match`. There is
  also a backtracking matcher for patterns made of optional characters and
  fixed-count classes.
- `size.dfy` (module `Size`): `getSizeRange`, `estimateCompanySize` with its
  three count patterns and four phrase groups, and the review-count rule
  applied to places results.
- `patterns.dfy` (module `Patterns`): each of the route's regular
  expressions as a named scanner. These are the e-mail, phone, LinkedIn
  name/title, "at Company", the two name-with-title patterns, and the
  company-name clean-up. Where the regex engine would backtrack, the
  scanner's doc comment argues why its single choice is the match the engine
  reports.
- `records.dfy` (module `Records`): search results, places results,
  companies, contacts, and the outcome of one call to the search service.
- `extract.dfy` (module `Extract`): `extractLinkedInContact` and
  `extractWebsiteContact` as functions.
- `contacts.dfy` (module `Contacts`): `findCompanyContacts` as a method.
  Each channel is a loop with invariants, proved against a fold that
  specifies the channel.
- `search_leads.dfy` (module `SearchLeads`): the `POST` handler as a method.
  It covers validation, the two discovery loops, the contact loop and the
  reachability filter, and is proved equal to `SearchLeadsSpec`.

How the environment is represented:

- The search service is a function value `(query, count) -> Fetch<T>`. A
  call either throws, answers with a non-ok status, or answers with a body
  whose result list may be absent.
- `new URL(s)` is a function value `string -> Option<Url>`, where `None`
  stands for the constructor throwing.
- An unreadable request body is `None`.

## Model

| member | source | states |
|---|---|---|
| Text.Lower | src/app/api/search-leads/route.ts:33 | lower-casing keeps the length and maps each character through the ASCII case mapping |
| Text.OrNull | src/app/api/search-leads/route.ts:383-385 | `x \|\| null` keeps a non-empty string and turns an absent or empty one into null |
| Text.TrimShape | src/app/api/search-leads/route.ts:107 | `trim()` keeps one contiguous stretch of the input that neither starts nor ends with white space, and everything it drops is white space |
| Text.TrimUnique | src/app/api/search-leads/route.ts:107 | a text that is white space, then a stretch with non-space ends, then white space, trims to exactly that stretch |
| Text.TrimDropsSpaces | src/app/api/search-leads/route.ts:423 | removing leading and trailing white space before `trim()` does not change its result |
| Text.Utf16Length | src/app/api/search-leads/route.ts:123 | a string's JavaScript length is at least its number of code points |
| Scan.Run | src/app/api/search-leads/route.ts:37 | a run of a character class is maximal: every character in it belongs to the class and the first one after it does not |
| Scan.RunUnique | src/app/api/search-leads/route.ts:37 | a run is determined by its members and the character that stops it |
| Scan.RunCovers | src/app/api/search-leads/route.ts:37 | a run is at least as long as any stretch of the class that starts where it starts |
| Scan.RunOfSuffix | src/app/api/search-leads/route.ts:111 | measuring a run in a suffix gives the same length as measuring it at the same place in the whole text |
| Scan.RunSplit | src/app/api/search-leads/route.ts:119 | a run from position 0 is any prefix of it followed by the run from the end of that prefix |
| Scan.FirstSeparatorExists | src/app/api/search-leads/route.ts:105 | the run of non-separators at the start of a text ends at its first dash or `\|`, or at the end |
| Scan.FirstSeparatorRun | src/app/api/search-leads/route.ts:105 | that run is the only position with no separator before it and a separator (or the end) at it |
| Scan.FirstKeywordAt | src/app/api/search-leads/route.ts:37 | an alternation under the `i` flag picks the first alternative, in the listed order, that occurs at that position, and fails only when none occurs there |
| Scan.KeywordAtLower | src/app/api/search-leads/route.ts:37 | a keyword occurs exactly where the lower-cased text equals it |
| Scan.Leftmost | src/app/api/search-leads/route.ts:43 | `match` reports the first position where the pattern matches: it matches there and at no earlier position, and a miss means it matches nowhere |
| Scan.LeftmostAtStart | src/app/api/search-leads/route.ts:43 | a pattern that matches at position 0 is reported there |
| Scan.MatchElemsSound | src/app/api/search-leads/route.ts:158 | what the matcher for optional characters and fixed-count classes accepts fits the pattern: each optional element takes one character of its class or none, each fixed-count element exactly that many |
| Scan.MatchElemsComplete | src/app/api/search-leads/route.ts:158 | when some split of the text fits the pattern, the matcher accepts |
| Size.Label | src/app/api/search-leads/route.ts:68-74 | every bucket's label is one of `1-25`, `26-50`, `51-100`, `100-500`, `500+` |
| Size.LabelsDistinct | src/app/api/search-leads/route.ts:68-74 | two buckets share a label only if they are the same bucket |
| Size.GetSizeRange | src/app/api/search-leads/route.ts:68-74 | each bucket holds exactly the counts between its cut-offs: at most 25, 26 to 50, 51 to 100, 101 to 500, over 500 |
| Size.SizeRangeMonotone | src/app/api/search-leads/route.ts:68-74 | a larger count never lands in a smaller bucket |
| Size.CountBeforeWord | src/app/api/search-leads/route.ts:37 | a match of the first count pattern starts with one to five digits |
| Size.CountBeforeSound | src/app/api/search-leads/route.ts:37 | a match of `(\d{1,5})\+?\s*(employees?\|staff\|workers\|people\|team members)` is one to five digits not followed by a sixth, an optional `+`, white space, and a people word; the captured count is the decimal value of those digits |
| Size.CountBeforeComplete | src/app/api/search-leads/route.ts:37 | every such digit run, gap and people word is a match, and it captures that decimal value |
| Size.CountAfterSound | src/app/api/search-leads/route.ts:38 | a match of `(?:employees?\|staff\|team\|workforce)\s*(?:of\s*)?(\d{1,5})` is a headcount word, white space, an optional "of" with white space, and a digit; the captured count is the decimal value of the first five (or fewer) digits of that digit run |
| Size.CountAfterComplete | src/app/api/search-leads/route.ts:38 | every such word, gap and digit is a match, and it captures that value |
| Size.AfterWordChosen | src/app/api/search-leads/route.ts:38 | the word of such a shape is the alternative the pattern takes: "employees" cannot win when only "employee" fits, because the `s` can be followed by neither white space, "of" nor a digit |
| Size.LeadingCountValue | src/app/api/search-leads/route.ts:38 | `(\d{1,5})` matches exactly where a digit stands and captures at most five digits of the run |
| Size.CountQualifiedSound | src/app/api/search-leads/route.ts:39 | a match of `(?:over\|more than\|about\|approximately\|around)\s*(\d{1,5})\s*(?:employees?\|staff)` is a qualifier, white space, one to five digits not followed by a sixth, white space, and "employee" or "staff"; the captured count is the decimal value of those digits |
| Size.CountQualifiedComplete | src/app/api/search-leads/route.ts:39 | every such qualifier, digit run, gap and word is a match, and it captures that value |
| Size.QualifierChosen | src/app/api/search-leads/route.ts:39 | the qualifiers differ in their first two letters, so the alternative the pattern takes is the only one that occurs |
| Size.ExplicitCount | src/app/api/search-leads/route.ts:41-49 | no count exactly when none of the three patterns matches anywhere; when the first pattern matches somewhere, the count is what it captures at its leftmost match; otherwise the second pattern's leftmost match decides, and only when neither matches does the third's |
| Size.EstimateCompanySize | src/app/api/search-leads/route.ts:32-65 | an explicit count, when found, decides the bucket; the result is null exactly when no count pattern and no size phrase matches |
| Size.PhraseGroupOrder | src/app/api/search-leads/route.ts:51-62 | without a count, the phrase groups are consulted in the order enterprise, mid-size, small/local, startup, and an earlier group overrides a later one |
| Size.LeadingCountDecides | src/app/api/search-leads/route.ts:36-47 | a snippet that starts with one to five digits and " employees" is sized by that count, whatever follows |
| Size.CountBeforeWordAt | src/app/api/search-leads/route.ts:37-46 | a digit run followed by white space and a people word is the leftmost match of the first count pattern |
| Size.ReviewBucket | src/app/api/search-leads/route.ts:372-379 | absent or zero reviews give no size; up to 30 (negative counts included) give `1-25`, 31 to 100 give `26-50`, 101 to 500 give `51-100` and more than 500 give `100-500`; the bucket is never `500+` and never above the bucket the same number gets as an employee count |
| Patterns.EmailAt | src/app/api/search-leads/route.ts:119 | an e-mail match at the start has a non-empty local part ended by `@` and lies inside the text |
| Patterns.EmailShapeParts | src/app/api/search-leads/route.ts:119 | in any text of the e-mail shape (local run, `@`, domain run, `.`, two or more letters), the local part is the whole local run and the domain is a proper prefix of the domain run ended by a dot and two letters |
| Patterns.EmailAtSound | src/app/api/search-leads/route.ts:119 | every match has the e-mail shape, no letter follows it, and its domain ends at the last dot the greedy domain run can give back to |
| Patterns.EmailAtComplete | src/app/api/search-leads/route.ts:119 | every text that starts with the e-mail shape matches |
| Patterns.EmailAtLongest | src/app/api/search-leads/route.ts:119 | the match keeps the longest domain that still leaves a dot and two letters |
| Patterns.LastTldDot | src/app/api/search-leads/route.ts:119 | the domain part ends at a dot followed by two letters; it is the last such dot inside the domain run, and none means there is none |
| Patterns.FindEmail | src/app/api/search-leads/route.ts:119-120 | `match` reports the match at the first position where the e-mail pattern matches; it reports nothing exactly when no position matches; a found address has a non-empty local part followed by `@` |
| Patterns.FindEmailFinds | src/app/api/search-leads/route.ts:119-120 | a snippet containing the e-mail shape anywhere yields an address |
| Patterns.RunOfPrefixSeq | src/app/api/search-leads/route.ts:119 | the local part measured in the match equals the one measured in the whole text |
| Patterns.FindPhone | src/app/api/search-leads/route.ts:158-159 | `match` reports the text of the phone pattern's match at the first position where it matches, and nothing exactly when no position matches; a found number holds at least ten digits |
| Patterns.FindElems | src/app/api/search-leads/route.ts:158 | a pattern search reports the match at the first position where the pattern matches, nothing exactly when no position matches, and a match holds every digit the fixed-count elements demand |
| Patterns.FindPhoneSound | src/app/api/search-leads/route.ts:158 | a found phone number is a prefix of the snippet at some position, and fits `\+?1?[-.\s]?\(?\d{3}\)?[-.\s]?\d{3}[-.\s]?\d{4}` there |
| Patterns.FindPhoneFinds | src/app/api/search-leads/route.ts:158 | a snippet in which the phone pattern fits at some position yields a phone number |
| Patterns.MatchedDigits | src/app/api/search-leads/route.ts:158 | whatever the optional/fixed-count matcher accepts contains every digit its fixed-count elements demand |
| Patterns.DigitCountAppend | src/app/api/search-leads/route.ts:158 | the digits of a concatenation are the digits of its parts |
| Patterns.DigitCountAllDigits | src/app/api/search-leads/route.ts:158 | a string of digits has as many digits as characters |
| Patterns.LeadingName | src/app/api/search-leads/route.ts:105-108 | the LinkedIn name pattern matches exactly when the title is non-empty and does not start with a dash or `\|` |
| Patterns.LeadingNameBeforeSeparator | src/app/api/search-leads/route.ts:105-107 | the captured name is the trimmed text before the title's first dash or `\|`, and there is none when the title starts with one |
| Patterns.LeadingNameShape | src/app/api/search-leads/route.ts:105-107 | a captured name holds no dash or `\|` and has no white space at either end |
| Patterns.DashTitleAt | src/app/api/search-leads/route.ts:111 | the job-title pattern matches at a position exactly when a dash stands there and the next character is not a dash or `\|` |
| Patterns.DashTitleBeforeSeparator | src/app/api/search-leads/route.ts:111 | after a dash, the captured title is the trimmed text up to the next dash or `\|` (or the end), and there is no match when a separator follows the dash at once |
| Patterns.DashTitle | src/app/api/search-leads/route.ts:111 | `match` reports the job-title match at the first position where the pattern matches, and nothing exactly when it matches nowhere |
| Patterns.AtSuffixAt | src/app/api/search-leads/route.ts:115 | an "at Company" suffix match always runs to the end of the text |
| Patterns.StripAtSuffix | src/app/api/search-leads/route.ts:115 | removing the suffix and trimming never lengthens the title |
| Patterns.TwoWordsAt | src/app/api/search-leads/route.ts:167-168 | the scanner for `[A-Z][a-z]+\s+[A-Z][a-z]+` under the `i` flag reports a second word of at least two letters inside the text |
| Patterns.TwoWordsAtSound | src/app/api/search-leads/route.ts:167-168 | what it reports is two words: a letter run of at least two, white space, and a letter run of at least two that no letter extends |
| Patterns.TwoWordsAtComplete | src/app/api/search-leads/route.ts:167-168 | every two words at the start are found, with the same first word and gap and a second word at least as long |
| Patterns.CommaTitle | src/app/api/search-leads/route.ts:167 | a match of the comma pattern puts an alternative of the title group where the group starts, after an optional comma and white space |
| Patterns.CommaTitleSound | src/app/api/search-leads/route.ts:167 | a match of the comma pattern is two words, an optional comma and white space, and a title word |
| Patterns.CommaTitleComplete | src/app/api/search-leads/route.ts:167 | two words followed by an optional comma, white space and a title word always match, with a name at least as long |
| Patterns.CommaTitleOf | src/app/api/search-leads/route.ts:167 | the comma pattern is decided by the backtracking over the second word that the two-word scanner found |
| Patterns.ShortenedSecondWord | src/app/api/search-leads/route.ts:167 | the second word that backtracking settles on keeps at least two letters and is followed by an optional comma, white space and a title |
| Patterns.LastTitleEnd | src/app/api/search-leads/route.ts:167 | the engine tries second-word lengths from the longest down and keeps the first after which a title follows; nothing is found exactly when no length works |
| Patterns.ShortenedFinds | src/app/api/search-leads/route.ts:167 | any second-word length after which a title follows gives a match at least that long |
| Patterns.CommaTitleAfter | src/app/api/search-leads/route.ts:167 | after an optional comma and white space, the title group is an alternative of the vocabulary, and the name ends where asked |
| Patterns.CommaTitleAfterComplete | src/app/api/search-leads/route.ts:167 | an optional comma, white space and a title word at a position always give a title there |
| Patterns.DashNameTitle | src/app/api/search-leads/route.ts:168 | a match of the dash pattern puts an alternative of the title group where the group starts |
| Patterns.DashNameTitleSound | src/app/api/search-leads/route.ts:168 | a match of the dash pattern is two words whose second no letter extends, white space, a dash, white space and a title word |
| Patterns.DashNameTitleComplete | src/app/api/search-leads/route.ts:168 | two such words followed by white space, a dash, white space and a title word match, with exactly that name and title |
| Patterns.DashNameTitleOf | src/app/api/search-leads/route.ts:168 | the dash pattern keeps the full second word, since a dash cannot follow a letter |
| Patterns.Groups | src/app/api/search-leads/route.ts:176-177 | the trimmed name and title are no longer than the text their groups captured |
| Patterns.GroupsText | src/app/api/search-leads/route.ts:176-177 | when the name group is two words and the title group a letter-bounded alternative, `trim()` leaves both unchanged |
| Patterns.FindNameTitle | src/app/api/search-leads/route.ts:166-177 | the name patterns give nothing exactly when neither the comma pattern nor the dash pattern matches at any position |
| Patterns.FindNameTitleSound | src/app/api/search-leads/route.ts:166-177 | what is found is, at some position, a match of one of the two patterns whose name group is two words and whose name and title are the matched text itself |
| Patterns.NameIsTwoWords | src/app/api/search-leads/route.ts:166-177 | a name found by the name patterns is two letter runs of at least two letters with white space between them |
| Patterns.TitleFromVocabulary | src/app/api/search-leads/route.ts:166-177 | a title found by either name pattern is one of CEO, CTO, CFO, COO, Founder, Owner, President, Director, Manager, VP, Vice President, in some letter case |
| Patterns.GroupsTitle | src/app/api/search-leads/route.ts:177 | the trimmed title group is a vocabulary word up to letter case |
| Patterns.KeywordTitle | src/app/api/search-leads/route.ts:177 | the text a title alternative matched is left unchanged by `trim()` and equals the alternative up to letter case |
| Patterns.TitleWordsLetterBounded | src/app/api/search-leads/route.ts:167-168 | every vocabulary word starts and ends with a letter |
| Patterns.BeforeFirst | src/app/api/search-leads/route.ts:197 | `split('@')[0]` is the prefix before the first `@`, and contains no `@` |
| Patterns.SplitLocal | src/app/api/search-leads/route.ts:198-199 | splitting on `.`, `_`, `-` gives at least one piece, and at least two exactly when the text holds a separator |
| Patterns.SplitLocalPieces | src/app/api/search-leads/route.ts:198 | no piece contains a separator, there is one more piece than there are separators, and the pieces with the separators put back between them rebuild the text |
| Patterns.SplitLocalRejoin | src/app/api/search-leads/route.ts:198 | the pieces of `split(/[._-]/)` with the separators put back between them rebuild the text |
| Patterns.SplitLocalFirst | src/app/api/search-leads/route.ts:198 | the first piece runs up to the first separator, and the remaining pieces are those of the text after it |
| Patterns.Separators | src/app/api/search-leads/route.ts:198 | the separators taken out are all `.`, `_` or `-`, and there is one exactly when the text holds a separator |
| Patterns.Capitalize | src/app/api/search-leads/route.ts:200-201 | a capitalised piece keeps its length; its first character is the upper-cased first character and each later one the lower-cased original |
| Patterns.NameFromEmail | src/app/api/search-leads/route.ts:197-205 | a name is built from an address exactly when its local part contains `.`, `_` or `-` |
| Patterns.NameFromEmailValue | src/app/api/search-leads/route.ts:197-202 | the name is the local part up to its first separator and the text from there to the next separator or the end, each capitalised, joined by one space |
| Patterns.SeparatorTailAt | src/app/api/search-leads/route.ts:421 | the separator-tail pattern matches at every separator and consumes at least that character |
| Patterns.StripSeparatorTails | src/app/api/search-leads/route.ts:421 | after the first replacement no dash or `\|` is left |
| Patterns.BarTailIdle | src/app/api/search-leads/route.ts:422 | the second replacement changes nothing in text without `\|` |
| Patterns.CompanyNameFromTitle | src/app/api/search-leads/route.ts:420-423 | a cleaned company name contains no dash or `\|` |
| Patterns.CompanyNameBeforeSeparator | src/app/api/search-leads/route.ts:420-423 | on a one-line title the company name is the trimmed text before the first dash or `\|`, and the trimmed title when there is none |
| Patterns.StripUpTo | src/app/api/search-leads/route.ts:421 | the first replacement keeps everything before the white space preceding the first separator and removes the rest of the line |
| Patterns.StripKeepsAll | src/app/api/search-leads/route.ts:421 | the first replacement changes nothing in text without a separator |
| Patterns.SeparatorTailWhole | src/app/api/search-leads/route.ts:421 | white space, a separator and no line terminator form one match that reaches the end |
| Patterns.TrimKeeps | src/app/api/search-leads/route.ts:423 | `trim()` introduces no character that was not in its input |
| Records.Items | src/app/api/search-leads/route.ts:245-249 | results are iterated only when the call succeeded and the list is present; otherwise there are none |
| Records.OrEmpty | src/app/api/search-leads/route.ts:92-94 | `x \|\| ''` keeps a non-empty string and gives the empty string otherwise |
| Extract.ContactSize | src/app/api/search-leads/route.ts:128 | a company's known size wins; only without one is the snippet estimate used |
| Extract.LinkedInJobTitle | src/app/api/search-leads/route.ts:111-116 | a LinkedIn contact has a job title exactly when the dash-title pattern matches |
| Extract.ExtractLinkedInContact | src/app/api/search-leads/route.ts:91-146 | a contact exists exactly when the link contains `linkedin.com/in/` and the leading name is present, at least two UTF-16 units long and free of "LinkedIn"; its name is that leading name and its job title the cleaned dash title; it carries the link as its LinkedIn URL, the company's name, phone and website, the snippet's e-mail and size, and source `linkedin_search`; its info holds the snippet and no found-on page |
| Extract.LinkedInNameShape | src/app/api/search-leads/route.ts:105-107 | a LinkedIn contact's name is non-empty, trimmed at both ends and free of dashes and `\|` |
| Extract.LinkedInNameValue | src/app/api/search-leads/route.ts:105-107 | a LinkedIn contact's name is the trimmed title text before the first dash or `\|` |
| Extract.LinkedInJobTitleValue | src/app/api/search-leads/route.ts:111-116 | the job title is the trimmed text from the first dash to the next separator or the end, with an "at Company" tail removed |
| Extract.WebsitePhone | src/app/api/search-leads/route.ts:158-159 | the phone is the one found in the snippet when there is one, else the company's |
| Extract.ExtractWebsiteContact | src/app/api/search-leads/route.ts:149-223 | a website contact never has a LinkedIn URL and records the page it was found on; a name pattern match always yields a `website_search` contact whose name and title are the matched groups and whose info holds the snippet; an `email_extraction` contact arises only without a name match, from a personal, non-generic address, is named after that address, and has no title and no snippet |
| Extract.EmailFallbackExactly | src/app/api/search-leads/route.ts:194-222 | the e-mail fallback happens exactly when no name pattern matches and the address found contains none of `info@`, `contact@`, `support@` and has a separated local part |
| Extract.WebsiteTitleInVocabulary | src/app/api/search-leads/route.ts:166-177 | a website contact's job title, when present, is a vocabulary word up to letter case |
| Extract.WebsiteNameIsTwoWords | src/app/api/search-leads/route.ts:166-177 | a `website_search` contact is named by two letter runs of at least two letters with white space between |
| Contacts.OwnerPick | src/app/api/search-leads/route.ts:320-326 | the owner channel takes the first result that yields a contact, and nothing only when none does |
| Contacts.TeamHost | src/app/api/search-leads/route.ts:262-265 | the website channel gets a host exactly when the website is truthy and parses as a URL, and that host is the URL's hostname |
| Contacts.FindCompanyContacts | src/app/api/search-leads/route.ts:226-335 | the method returns the contacts `CompanyContacts` specifies |
| Contacts.RunChannels | src/app/api/search-leads/route.ts:229-334 | the three channels in order give the contacts `Channels` specifies, for any pair of extractors |
| Contacts.LinkedInLoop | src/app/api/search-leads/route.ts:249-254 | the LinkedIn loop's list is the LinkedIn fold over its results |
| Contacts.WebsiteLoop | src/app/api/search-leads/route.ts:283-291 | the website loop's list is the website fold over its results |
| Contacts.OwnerLoop | src/app/api/search-leads/route.ts:320-326 | the loop with `break` returns the owner channel's pick |
| Contacts.LinkedInPassExtends | src/app/api/search-leads/route.ts:249-254 | the LinkedIn channel only appends, at most one contact per result |
| Contacts.WebsitePassExtends | src/app/api/search-leads/route.ts:283-291 | the website channel only appends, at most one contact per result |
| Contacts.LinkedInPassDistinct | src/app/api/search-leads/route.ts:251 | the LinkedIn channel never lists one name twice |
| Contacts.WebsitePassDistinct | src/app/api/search-leads/route.ts:285-288 | the website channel never lists one name twice |
| Contacts.WebsitePassNewEmails | src/app/api/search-leads/route.ts:287 | the website channel never adds a contact whose e-mail equals an earlier contact's non-empty e-mail |
| Contacts.LinkedInPassSource | src/app/api/search-leads/route.ts:250-252 | every contact the LinkedIn channel adds was extracted from one of its results |
| Contacts.WebsitePassSource | src/app/api/search-leads/route.ts:284-289 | every contact the website channel adds was extracted from one of its results |
| Contacts.ChannelsDistinct | src/app/api/search-leads/route.ts:226-334 | the channels together never list one name twice |
| Contacts.CompanyContactsDistinct | src/app/api/search-leads/route.ts:226-335 | `findCompanyContacts` never returns two contacts with the same name |
| Contacts.LinkedInExtractorFacts | src/app/api/search-leads/route.ts:130-145 | every LinkedIn contact is about the company, industry and location at hand, has a LinkedIn URL and source `linkedin_search` |
| Contacts.WebsiteExtractorFacts | src/app/api/search-leads/route.ts:174-218 | every website contact is about the company, industry and location at hand, has no LinkedIn URL and is not marked `linkedin_search` |
| Contacts.ChannelsShape | src/app/api/search-leads/route.ts:226-334 | with extractors of those shapes, the LinkedIn contacts come first and the website or owner contacts after them |
| Contacts.CompanyContactsShape | src/app/api/search-leads/route.ts:226-335 | every contact found for a company is about that company; the LinkedIn ones, with their profile links, come first, and the ones after them carry no LinkedIn URL |
| Contacts.WebsiteChannelSkipped | src/app/api/search-leads/route.ts:262-264 | without a truthy website that parses, the website channel adds nothing |
| Contacts.OwnerChannelRule | src/app/api/search-leads/route.ts:300-332 | the owner search is consulted only when the first two channels found nobody, and then adds at most one contact |
| Contacts.FailedChannelAddsNothing | src/app/api/search-leads/route.ts:245-259 | a channel whose call throws, fails or lacks results leaves the list unchanged |
| Contacts.NoLinkedInNoSite | src/app/api/search-leads/route.ts:245-332 | when the LinkedIn call fails and there is no website, the result is the owner pick alone, because a failed channel does not stop the later ones |
| SearchLeads.Status | src/app/api/search-leads/route.ts:341-347 | leads answer 200, missing parameters 400, a missing key or a failure 500 |
| SearchLeads.Min | src/app/api/search-leads/route.ts:450 | the number of companies processed is the smaller of the cap and the number found |
| SearchLeads.PlaceCompany | src/app/api/search-leads/route.ts:381-387 | a places company keeps the result's title as its name; website, phone and address are kept when non-empty and stored as null otherwise; its size comes from the review count |
| SearchLeads.WebsiteOf | src/app/api/search-leads/route.ts:425-430 | the website is the URL's origin when the link parses, and the raw link when it does not |
| SearchLeads.OrganicCompany | src/app/api/search-leads/route.ts:411-443 | an organic result gives no company exactly when its link is an aggregator's or its cleaned name is empty; otherwise the company has that name, no phone or address, the snippet's size, and as website the link's origin, or the raw link when it does not parse |
| SearchLeads.SearchLeads | src/app/api/search-leads/route.ts:337-475 | the handler answers what `SearchLeadsSpec` specifies |
| SearchLeads.PlacesLoop | src/app/api/search-leads/route.ts:368-390 | the places loop's list is the places fold over its results |
| SearchLeads.OrganicLoop | src/app/api/search-leads/route.ts:409-445 | the organic loop's list is the organic fold over its results |
| SearchLeads.ContactsLoop | src/app/api/search-leads/route.ts:452-458 | the contact loop gathers each picked company's contacts, company by company |
| SearchLeads.FilterLoop | src/app/api/search-leads/route.ts:461-463 | the filter keeps the reachable contacts in order |
| SearchLeads.ValidationOrder | src/app/api/search-leads/route.ts:339-347 | an unreadable body fails first, then a missing key, then a missing industry or location, whatever the searches would return; each error answer implies its cause |
| SearchLeads.DiscoveryFailures | src/app/api/search-leads/route.ts:353-406 | a discovery call that throws ends the request with the failure answer; calls that answer with a bad status contribute no companies |
| SearchLeads.PlacesPassDistinct | src/app/api/search-leads/route.ts:370 | the places loop never lists two names equal up to letter case |
| SearchLeads.OrganicPassDistinct | src/app/api/search-leads/route.ts:432 | the organic loop never lists two names equal up to letter case |
| SearchLeads.PlacesPassExtends | src/app/api/search-leads/route.ts:369-389 | the places loop only appends, at most one company per result |
| SearchLeads.OrganicPassExtends | src/app/api/search-leads/route.ts:410-444 | the organic loop only appends, at most one company per result |
| SearchLeads.OrganicPassSource | src/app/api/search-leads/route.ts:410-444 | every company the organic loop adds is the conversion of one of its results |
| SearchLeads.DiscoveryShape | src/app/api/search-leads/route.ts:350-446 | discovery lists each name once up to letter case, the places companies first, and each company after them comes from a non-aggregator result whose cleaned title is its non-empty name |
| SearchLeads.AllContactsAppend | src/app/api/search-leads/route.ts:452-455 | gathering contacts over two runs of companies concatenates their contacts |
| SearchLeads.LeadsFollowCompanyOrder | src/app/api/search-leads/route.ts:449-463 | the leads of earlier companies come before the leads of later ones |
| SearchLeads.ValidAppend | src/app/api/search-leads/route.ts:461-463 | filtering distributes over concatenation, so it keeps order |
| SearchLeads.ValidMembers | src/app/api/search-leads/route.ts:461-463 | a contact is returned exactly when it was gathered and can be reached, and filtering never adds contacts |
| SearchLeads.AllContactsSource | src/app/api/search-leads/route.ts:452-455 | every gathered contact was found for one of the processed companies |
| SearchLeads.LeadsShape | src/app/api/search-leads/route.ts:448-469 | `total` counts the leads, `companies_searched` is the smaller of 8 and the number found, every lead can be reached, and every lead belongs to one of the searched companies in the requested industry and location |

## Left out

- HTTP and JSON plumbing is not modelled. This covers `fetch`, request headers, `response.json()`, `NextRequest`/`NextResponse`, and the API key sent with each call. Each upstream call is a function parameter that, for the same query and result count, always gives the same outcome.
- The 100 ms pause between companies (route.ts line 457) is left out; it is timing only.
- `console.error` logging is left out. A caught failure means only that the channel contributes nothing.
- `new URL(...)` is an abstract partial function. Its `origin` and `hostname` are given, not computed.
- Case mapping covers ASCII letters only, in both `toLowerCase` and `toUpperCase`. The regexes' `i` flag is modelled the same way.
- Only string-valued request fields are modelled. A JSON body whose `industry` or `location` is a non-string truthy value is not represented.
- Result records always carry a string title. A result without one would make `.replace` or `.match` throw. Unused fields (`position`, `rating`, `category`) are dropped.
- A places result's review count is an integer. A JSON `reviews` value with a fractional part is not represented.
- A company stores its size as a bucket rather than the bucket's label; `Size.Label` gives the label.
- `CountBeforeWord`: its own contract states only the length of the digit run. `Size.CountBeforeSound` and `Size.CountBeforeComplete` state the whole match and the captured value.
- `CountAfterWord`: no contract of its own. `Size.CountAfterSound` and `Size.CountAfterComplete` state the match and the captured value.
- `CountQualified`: no contract of its own. `Size.CountQualifiedSound` and `Size.CountQualifiedComplete` state the match and the captured value.
- `EmailAt`: its own contract states only the local part and the `@`. `Patterns.EmailAtSound`, `Patterns.EmailAtComplete` and `Patterns.EmailAtLongest` state the full shape and which match is taken.
- `DashTitleAt`: its own contract states only when it matches. `Patterns.DashTitleBeforeSeparator` states the captured title.
- `TwoWordsAt`: its own contract states only the second word. `Patterns.TwoWordsAtSound` and `Patterns.TwoWordsAtComplete` state both words and the white space.
- `Groups`: its own contract states only lengths. `Patterns.GroupsText` and `Patterns.FindNameTitleSound` state which text each group holds.
- `StripSeparatorTails`: its own contract states only that no separator remains. `Patterns.StripUpTo` and `Patterns.StripKeepsAll` state what is kept on a one-line title.
- `CompanyNameFromTitle`: its own contract states only that no separator remains. `Patterns.CompanyNameBeforeSeparator` states the name on a one-line title.
- `Patterns.CompanyNameBeforeSeparator`: covers titles without line terminators only. On a title with a line break the first replacement stops at the break and resumes on the next line; `Patterns.CompanyNameFromTitle` models that, but no lemma states the resulting text.
- `Patterns.StripAtSuffix`: states only that the title does not grow. The pattern `\s*at\s+.*$` also matches "at" inside a word: "Chat Support Lead" becomes "Ch". The model reproduces this as written.
- Where the described behaviour and the code disagree, the model follows the code:
  - The places and organic discovery calls are not wrapped in their own `try`. One that throws ends the request with the generic 500 answer; it is not skipped.
  - A snippet mentioning "250 employees" is sized `100-500` only when no earlier count pattern matches first. `Size.ExplicitCount` states the precedence.
  - A snippet mentioning "startup" is sized `1-25` only when no explicit count and no earlier phrase group applies. `Size.PhraseGroupOrder` states the actual precedence.
