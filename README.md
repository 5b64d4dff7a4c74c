# bottlecap content negotiation, in Dafny

This project models the core of bottlecap, a small extension of the bottle web
framework:

- **Media types** (`wrappers.dfy`, `text.dfy`, `mediatype.dfy`). Strings of the
  form `type/subtype;key=value;...` are parsed into a structured value and
  formatted back. The value has:
  - a `+suffix` (RFC 3023);
  - a quality weight (section 5.3.1 of RFC 7231);
  - a precedence order (section 5.3.2 of RFC 7231);
  - the asymmetric compatibility test `is_match`.
- **Media type lists** (`mediatypelist.dfy`). Lists are built from a header, or
  from a list of strings and values. They are:
  - sorted stably by precedence;
  - searched with `is_match`;
  - paired against another list by the greedy `best_match` loop and its head
    `first_match`.
- **Content negotiation** (`negotiation.dfy`), as a view performs it.
  - Renderers and parsers are values tagged with their declared media types.
    Their `render` and `parse` are abstract functions that may fail.
  - `pre_dispatch` is a pure decision function, `Negotiate`. A class,
    `NegotiationContext`, fills the same fields in place, and its methods are
    proved to end in the state `Negotiate` describes.
  - The rendering rule of `__call__` is a function `AfterDispatch` with a method
    `Respond`, which mutates an `HttpResponse` object.
- **Users and bearer tokens** (`auth.dfy`). The role checks of `User` and the
  header checks of `JWTAuthPlugin.get_token_from_request`. The header is passed
  in as an optional string.
- **Error classes** (`exceptions.dfy`). `BaseError` and its subclasses: class
  defaults found through the base classes, a constructor that overrides them per
  instance, and `to_dict`.

Four behaviours of the code shape the model:

- **Parameter comparison is order-sensitive.** `is_match` compares the
  `OrderedDict` copies of the two parameter sets. Two `OrderedDict`s are equal
  only when their entries come in the same order, so the model compares the
  ordered lists of non-`q` parameters.
- **The suffix is the text after the first `+`.** `padded_split` splits once,
  so `a+b+json` has the suffix `b+json`.
- **`is_match` is not symmetric.** The receiver's quality must not exceed the
  argument's. The server's declared list is always the receiver (in
  `select_parser` and in `select_renderer`). So a declared type without `q`
  never matches an `Accept` entry weighted below 1
  (`MediaTypes.UnweightedNeverMatchesDiscounted`). Matching is symmetric only
  when quality is ignored (`MediaTypes.MatchSymmetricWithoutQuality`).
- **Quality is not range-checked.** A `q` outside [0, 1] is read as written.

Inputs that the Python code receives from the framework are parameters here:
- the `Accept` and `Content-Type` headers and the request body (`Request`);
- the view's class attributes (`Config`);
- the view function (`dispatch`);
- the framework's empty error body (`emptyBody`);
- the configured public key (a boolean);
- the codecs inside the renderers and parsers.

## Model

| member | source | states |
|---|---|---|
| Text.Strip | bottlecap/mediatype.py:159 | `str.strip()`: the result has no surrounding whitespace and an already stripped string is unchanged |
| Text.Remove | bottlecap/mediatype.py:145-148 | `s.replace(c, "")`, as `Decimal` drops underscores: no `c` is left, and a string without `c` is unchanged |
| Text.StripSurrounded | bottlecap/auth.py:112 | `str.strip()` removes exactly the whitespace around text whose ends are not whitespace |
| Text.PaddedSplit | bottlecap/mediatype.py:159-162 | `padded_split(s, c, 1)`: without `c` the first half is the whole string and the second is none; otherwise the string is the first half, `c`, then the second half, and the first half has no `c` |
| Text.Split | bottlecap/mediatype.py:178-179 | `str.split(c)`: at least one piece, no piece contains `c`, and joining the pieces with `c` gives the string back |
| Text.SplitJoin | bottlecap/mediatype.py:178-179 | splitting pieces that were joined with a separator they do not contain gives the pieces back |
| Text.DigitsRoundTrip | bottlecap/mediatype.py:174-175 | a digit string without a leading zero, read as `int` and printed again, is unchanged |
| MediaTypes.DictSet | bottlecap/mediatype.py:178-179 | assigning into an `OrderedDict`: a new key is appended; an existing key keeps its position; nothing else is added |
| MediaTypes.DictSetLookup | bottlecap/mediatype.py:178-179 | after `d[k] = v`, `d.get(k)` is `v` |
| MediaTypes.DictSetKeepsDistinct | bottlecap/mediatype.py:178-179 | assigning into the dictionary keeps its keys distinct |
| MediaTypes.BuildDict | bottlecap/mediatype.py:178-179 | `OrderedDict(pairs)` has distinct keys and only entries taken from the pairs |
| MediaTypes.BuildDictDistinct | bottlecap/mediatype.py:178-179 | pairs whose keys are already distinct come out unchanged and in order |
| MediaTypes.DuplicateKeyKeepsFirstPositionLastValue | bottlecap/mediatype.py:178-179 | a repeated parameter key keeps the position of its first occurrence and the value of its last |
| MediaTypes.ParseParams | bottlecap/mediatype.py:170-179 | the parameter list parses exactly when every piece does, and its i-th entry is the i-th piece parsed |
| MediaTypes.ParseParamList | bottlecap/mediatype.py:170-179 | parsed parameters have distinct non-empty keys, non-empty values, and digit-only values stored as integers |
| MediaTypes.ParseFullType | bottlecap/mediatype.py:159-168 | a bare `*` reads as any/any; the type part needs a `/`, and a wildcard type needs a wildcard subtype |
| MediaTypes.Parse | bottlecap/mediatype.py:151-182 | every successfully parsed media type is well formed (no `/` in the type, wildcard type only with wildcard subtype, valid parameters) |
| MediaTypes.MissingSlashRejected | bottlecap/mediatype.py:162-164 | a string with no `/` that is not the bare star raises `ParseError` |
| MediaTypes.WildcardTypeNeedsWildcardSubtype | bottlecap/mediatype.py:166-168 | `*/x` with `x` other than `*` raises `ParseError` |
| MediaTypes.MissingEqualsRejected | bottlecap/mediatype.py:170-173 | a parameter piece without `=` raises `ParseError` |
| MediaTypes.EmptyKeyRejected | bottlecap/mediatype.py:170-173 | a parameter piece with an empty key raises `ParseError` |
| MediaTypes.EmptyValueRejected | bottlecap/mediatype.py:170-173 | a parameter piece with an empty value raises `ParseError` |
| MediaTypes.Cast | bottlecap/mediatype.py:14-29 | `cast_media_type`: text is parsed and an already parsed value is returned as is |
| MediaTypes.ParseThenFormat | bottlecap/mediatype.py:56-67 | formatting a parsed canonical string reproduces it exactly, so the value compares equal to that string (`__eq__`, lines 281-284) |
| MediaTypes.ParamListThenFormat | bottlecap/mediatype.py:61-66 | the parameters of a canonical tail are printed back in insertion order as the same text |
| MediaTypes.FormatThenParse | bottlecap/mediatype.py:56-67 | parsing the printed form of a well-formed media type gives the same value back |
| MediaTypes.Suffix | bottlecap/mediatype.py:138-142 | the suffix is none exactly when the subtype has no `+`; otherwise the subtype is a `+`-free base, `+`, and the suffix |
| MediaTypes.FormatExamples | bottlecap/mediatype.py:113-126 | the documented formats: `application/xml` is `xml`, `application/json` and `vnd/special+json` are `json`, `text/html` is `html`, `text/plain` is `plain`, `wtf/world` has none |
| MediaTypes.FormatCases | bottlecap/mediatype.py:106-136 | `format` is `json` exactly for `application/json` or a `json` suffix; `xml` likewise, when not `json`; `html` and `plain` exactly for `text/html` and `text/plain`; nothing else; the parameters play no part |
| MediaTypes.DecimalOfDigits | bottlecap/mediatype.py:145-148 | a `q` stored as digit text has the same quality as the integer it spells |
| MediaTypes.SpacesAroundIgnored | bottlecap/mediatype.py:145-148 | `Decimal` ignores whitespace around the number |
| MediaTypes.UnderscoreIgnored | bottlecap/mediatype.py:145-148 | `Decimal` drops an underscore inside the number |
| MediaTypes.FractionBelowOne | bottlecap/mediatype.py:145-148 | a weight written `0.` followed by digits is a decimal in [0, 1) |
| MediaTypes.QualityReadsQ | bottlecap/mediatype.py:145-148 | the quality is 1 without a `q` parameter and the integer value of an integer `q` |
| MediaTypes.Compare | bottlecap/mediatype.py:184-223 | `compare` returns -1, 0 or 1, and needs readable qualities only when type, subtype and parameter count all tie, the one case in which it reads them |
| MediaTypes.CompareIsLexicographic | bottlecap/mediatype.py:184-223 | `compare` is the lexicographic order of (concrete type, concrete subtype, number of non-`q` parameters unless ignored, quality unless ignored), in both directions and for ties |
| MediaTypes.CompareIsPreorder | bottlecap/mediatype.py:184-223 | `compare(a, a) == 0`, `compare` is antisymmetric in sign and transitive for ties, for `>=` and for `>` |
| MediaTypes.OrderingOperators | bottlecap/mediatype.py:269-279 | `<`, `>`, `<=`, `>=` defined from `compare` relate as the operators of a total preorder, and `<=` with `>=` means equal keys |
| MediaTypes.WithoutQ | bottlecap/mediatype.py:209-211 | the non-`q` parameters are as many as `compare` counts |
| MediaTypes.MatchMeans | bottlecap/mediatype.py:225-267 | `is_match` holds exactly when types and subtypes are compatible, (unless ignored) neither quality is 0 and the receiver's does not exceed the argument's, and (unless ignored) the non-`q` parameters agree in order; qualities need to be readable only as `is_match` reads them: none for incompatible types, then the receiver's, and the argument's only when the receiver's is not 0 |
| MediaTypes.ZeroWeightMatchesNothing | bottlecap/mediatype.py:252-256 | a receiver weighted 0 never matches with quality considered, and the argument's quality need not be readable for that answer |
| MediaTypes.IncompatibleNeverMatches | bottlecap/mediatype.py:243-250 | incompatible types or subtypes never match, and no quality has to be readable for that answer |
| MediaTypes.MatchWeightDirection | bottlecap/mediatype.py:252-256 | with quality considered, a match means the receiver is no heavier than the argument, and a strictly lighter receiver is not matched back |
| MediaTypes.UnweightedNeverMatchesDiscounted | bottlecap/mediatype.py:252-256 | a receiver without `q` never matches an argument weighted below 1 |
| MediaTypes.MatchSymmetricWithoutQuality | bottlecap/mediatype.py:243-250 | with quality ignored, `is_match` is symmetric |
| MediaTypes.IgnoringWidensMatch | bottlecap/mediatype.py:254-265 | ignoring quality or parameters never turns a match into a non-match |
| MediaTypes.MatchReflexive | bottlecap/mediatype.py:243-267 | a media type with non-zero weight matches itself; one weighted 0 matches nothing in either role |
| MediaTypeLists.CastAll | bottlecap/mediatype.py:307-308 | the list is built exactly when every item casts, item by item in order |
| MediaTypeLists.HeaderList | bottlecap/mediatype.py:305-308 | a header string reads exactly when each comma-separated piece parses; the list has one parsed entry per piece and is never empty |
| MediaTypeLists.HeaderRoundTrip | bottlecap/mediatype.py:305-308 | well-formed media types written out and joined with commas read back as the same list |
| MediaTypeLists.CastListOfEmpty | bottlecap/mediatype.py:32-46 | `cast_media_type_list` of a falsy value is the empty list, although building a list from the empty header fails |
| MediaTypeLists.EmptyHeaderRejected | bottlecap/mediatype.py:305-308 | the empty header string does not read as a list |
| MediaTypeLists.CastListAgrees | bottlecap/mediatype.py:32-46 | a built list is returned as is, a truthy value is built, and a header that builds gives at least one entry |
| MediaTypeLists.Insert | bottlecap/mediatype.py:315-318 | stable insertion adds exactly the one element (as a multiset) |
| MediaTypeLists.InsertKeepsOrder | bottlecap/mediatype.py:315-318 | inserting into a list in non-increasing precedence keeps it so |
| MediaTypeLists.SortedByPrecedence | bottlecap/mediatype.py:315-318 | `sorted(self, reverse=True)` is a permutation of the list |
| MediaTypeLists.SortedIsOrdered | bottlecap/mediatype.py:315-318 | the sorted list never increases in precedence and is a permutation of the input |
| MediaTypeLists.SortIsStable | bottlecap/mediatype.py:315-318 | elements of equal precedence keep their relative order |
| MediaTypeLists.SortedSameMembers | bottlecap/mediatype.py:315-318 | the sorted list has exactly the members of the input |
| MediaTypeLists.ListIsMatch | bottlecap/mediatype.py:320-340 | the loop returns true exactly when some element of the list matches the candidate; the candidate's quality must be readable only when some type-compatible element has a non-zero weight |
| MediaTypeLists.AnyMatches | bottlecap/mediatype.py:336-340 | the loop over the sorted list returns true exactly when some position holds an element that matches the candidate |
| MediaTypeLists.Hits | bottlecap/mediatype.py:378-380 | every collected pair is `(b, a)` with `b` remaining and `a.is_match(b)` |
| MediaTypeLists.Misses | bottlecap/mediatype.py:381-382 | what remains are media types `a` does not match, no more than before |
| MediaTypeLists.BestMatch | bottlecap/mediatype.py:350-383 | `best_match` sorts the list by precedence and returns exactly the greedy pairing of the sorted list against `other` |
| MediaTypeLists.MatchInOrder | bottlecap/mediatype.py:375-383 | the loop, with its early `break` once nothing remains, collects exactly the greedy pairing: each element in turn takes every remaining media type it matches |
| MediaTypeLists.GreedyCovers | bottlecap/mediatype.py:375-382 | each media type of `other` is paired as often as it occurs when some element matches it, and never otherwise |
| MediaTypeLists.GreedyPairsFirstMatch | bottlecap/mediatype.py:375-382 | each pair joins a media type of `other` with the first ranked element that matches it (pairs are never revisited) |
| MediaTypeLists.GreedyFollowsRanking | bottlecap/mediatype.py:375-382 | the own halves of the pairs come from the ranked list, in its order |
| MediaTypeLists.BestMatchesPairs | bottlecap/mediatype.py:350-383 | in every pair `(b, a)`, `b` is from `other`, `a` is from this list, `a.is_match(b)`, and `a` outranks every element matching `b` |
| MediaTypeLists.BestMatchesCover | bottlecap/mediatype.py:350-383 | a media type of `other` appears in pairs exactly as often as in `other` when matched, and not at all otherwise |
| MediaTypeLists.BestMatchesOrdered | bottlecap/mediatype.py:350-383 | the pairs come grouped by this list's elements in non-increasing precedence |
| MediaTypeLists.MatchedIsPaired | bottlecap/mediatype.py:350-383 | a media type of `other` matched by some element is the first half of some pair |
| MediaTypeLists.FirstMatchIsHeadOfBest | bottlecap/mediatype.py:342-348 | `first_match` is the first pair of `best_match`, or none when it is empty |
| MediaTypeLists.FirstMatchOfOne | bottlecap/mediatype.py:342-348 | against one media type, `first_match` succeeds exactly when some element matches it, and pairs it with the highest-precedence such element |
| MediaTypeLists.FirstMatchFinds | bottlecap/mediatype.py:342-348 | `first_match` succeeds exactly when some element matches some media type of `other` |
| MediaTypeLists.FirstMatchOutranks | bottlecap/mediatype.py:342-348 | the element `first_match` returns matches a media type of `other` and outranks every element that matches anything in `other` |
| Negotiation.MakeParser | bottlecap/negotiation.py:80-84 | a parser class exists exactly when its declared media types cast to a list, and it keeps that list and its `parse` |
| Negotiation.MakeRenderer | bottlecap/negotiation.py:22-29 | a renderer keeps its declared list; a given default is kept, otherwise the default is the first declared type, or none exactly when none is declared |
| Negotiation.RendererTypeNames | bottlecap/negotiation.py:46-65 | the built-in renderers declare `text/plain`, `text/html` and `application/json` |
| Negotiation.ParserTypeNames | bottlecap/negotiation.py:99-122 | the built-in parsers declare `application/octet-stream`, `application/json`, and the two form types |
| Negotiation.SimpleHeader | bottlecap/mediatype.py:305-308 | a parameterless media type of simple names, written out, reads back as the one-element list |
| Negotiation.PlainTextDeclaration | bottlecap/negotiation.py:46-52 | `PlainTextRenderer` declares `text/plain` and defaults to it |
| Negotiation.HtmlDeclaration | bottlecap/negotiation.py:55-61 | `HTMLRenderer` declares `text/html` and defaults to it |
| Negotiation.JsonRendererDeclaration | bottlecap/negotiation.py:64-73 | `JSONRenderer` declares `application/json` and defaults to it |
| Negotiation.OctetStreamDeclaration | bottlecap/negotiation.py:99-105 | `OctetStreamParser` declares `application/octet-stream` |
| Negotiation.JsonParserDeclaration | bottlecap/negotiation.py:108-116 | `JSONParser` declares `application/json` |
| Negotiation.FormDeclaration | bottlecap/negotiation.py:119-126 | `FormParser` declares the urlencoded and multipart form types, in order |
| Negotiation.GuessContentType | bottlecap/negotiation.py:149-160 | a guess exists exactly for a non-empty body, and it is `application/octet-stream` |
| Negotiation.GuessedTypeIsOctetStream | bottlecap/negotiation.py:149-172 | the octet-stream parser is selected for the guessed type |
| MediaTypeLists.FirstIndex | bottlecap/negotiation.py:170-173 | the first-match loop (of `select_parser`, and of the search for the element that matches a media type first) returns the first position whose element satisfies the test, or none when no element does |
| Negotiation.SelectParser | bottlecap/negotiation.py:162-173 | `select_parser` is the first parser whose `first_match` against the request type succeeds; none exactly when no parser's does |
| Negotiation.SelectParserFinds | bottlecap/negotiation.py:162-173 | a parser is selected exactly when some parser declares a matching type, and it is the first such parser in list order |
| Negotiation.FirstOffer | bottlecap/negotiation.py:183-187 | the loop returns the first renderer with an offer, with that offer, or none when no renderer has one |
| Negotiation.SelectRenderer | bottlecap/negotiation.py:175-187 | `select_renderer` is the first renderer whose `first_match` succeeds, with the renderer's own matched type; none exactly when no renderer's does |
| Negotiation.SelectRendererFinds | bottlecap/negotiation.py:175-187 | a renderer is selected exactly when some renderer is acceptable; it is the first acceptable one; its type is one it declares, matches an `Accept` entry and outranks its other matching types |
| Negotiation.ChooseRenderer | bottlecap/negotiation.py:250-263 | the renderer step records the `Accept` list, sets no request fields, and raises only 406, in which case no renderer is set |
| Negotiation.ReadRequest | bottlecap/negotiation.py:265-294 | the request step keeps the renderer fields; the errors it adds are 400 Invalid Content Type, 415 or 400 Invalid Body; it records the parsed or guessed type; a chosen parser is `select_parser`'s |
| Negotiation.AfterAccept | bottlecap/negotiation.py:250-294 | after the `Accept` list, the renderer fields are the renderer step's, and a 406 stops before `Content-Type` is read |
| Negotiation.Negotiate | bottlecap/negotiation.py:243-248 | `400 Invalid Accept` is raised exactly when the `Accept` header does not read, and then nothing else is set |
| Negotiation.NegotiationContext.constructor | bottlecap/negotiation.py:133-145 | a fresh context has every field none |
| Negotiation.NegotiationContext.AcceptStep | bottlecap/negotiation.py:250-263 | the in-place renderer step leaves exactly the fields and error `ChooseRenderer` gives |
| Negotiation.NegotiationContext.RequestStep | bottlecap/negotiation.py:265-294 | the in-place request step leaves exactly the fields and error `ReadRequest` gives from the old fields |
| Negotiation.NegotiationContext.PreDispatch | bottlecap/negotiation.py:237-294 | `pre_dispatch` fills the context in place and stops at the first error, ending in exactly the state `Negotiate` describes |
| Negotiation.EmptyAcceptRejected | bottlecap/negotiation.py:243-248 | an empty `Accept` header, unlike a missing one, is rejected with 400 Invalid Accept |
| Negotiation.WildcardText | bottlecap/negotiation.py:244 | the default `Accept` value is `*/*` |
| Negotiation.WildcardAccept | bottlecap/negotiation.py:244-245 | the default `Accept` value reads as the one-element list of the any/any wildcard |
| Negotiation.MissingAcceptIsWildcard | bottlecap/negotiation.py:243-245 | a request without `Accept` is negotiated as accepting the wildcard |
| Negotiation.WildcardPicksFirstRenderer | bottlecap/negotiation.py:250-256 | against the wildcard, the first renderer is chosen when it declares a type without extra parameters and with weight in (0, 1] |
| Negotiation.RendererChoice | bottlecap/negotiation.py:250-263 | the first acceptable renderer is chosen; otherwise the mismatch renderer with its default type, or 406 without one; with no renderers or an empty list, no renderer and no error |
| Negotiation.InvalidContentTypeHandling | bottlecap/negotiation.py:265-273 | 400 Invalid Content Type is raised exactly when a non-empty `Content-Type` does not parse |
| Negotiation.DeclaredRequestType | bottlecap/negotiation.py:266-269 | a readable `Content-Type` is the request type |
| Negotiation.GuessedRequestType | bottlecap/negotiation.py:275-278 | without a usable `Content-Type`, a non-empty body is typed `application/octet-stream` |
| Negotiation.NoRequestType | bottlecap/negotiation.py:265-289 | with neither a `Content-Type` nor a body, the request step changes nothing |
| Negotiation.UnsupportedHandling | bottlecap/negotiation.py:280-286 | 415 is raised exactly when no parser supports the request type |
| Negotiation.BodyHandling | bottlecap/negotiation.py:288-294 | a raising parser gives 400 Invalid Body with no parsed body; otherwise the parsed body is recorded and no error raised |
| Negotiation.ParserChoice | bottlecap/negotiation.py:280-286 | the parser chosen is the first in list order that supports the request type |
| Negotiation.HttpResponse.constructor | bottlecap/negotiation.py:227-232 | a new response carries the given status, body and content type |
| Negotiation.Respond | bottlecap/negotiation.py:219-235 | the in-place rendering of the response ends as `AfterDispatch` says |
| Negotiation.Call | bottlecap/negotiation.py:214-235 | `__call__` (negotiate on a fresh context, dispatch unless it raised, render) ends as `Serve` says |
| Negotiation.RenderRule | bottlecap/negotiation.py:230-234 | with a renderer, the body becomes its rendering and the content type the negotiated one; the status is kept; a raising renderer escapes |
| Negotiation.ReRaiseRule | bottlecap/negotiation.py:221-226 | a raised response escapes unchanged exactly when errors are not rendered or no renderer was chosen |
| Negotiation.EarlyErrorsLeaveNoRenderer | bottlecap/negotiation.py:243-263 | 400 Invalid Accept and 406 leave no renderer chosen |
| Negotiation.EarlyErrorsEscape | bottlecap/negotiation.py:221-226 | so those two errors always escape as raised, whatever `render_errors` says |
| Negotiation.LaterErrorsRendered | bottlecap/negotiation.py:221-234 | the later negotiation errors are rendered with the negotiated type when `render_errors` holds and a renderer was chosen |
| Negotiation.FinishRendersErrors | bottlecap/negotiation.py:224-234 | a negotiation that raised after choosing a renderer has its error response rendered |
| Auth.Roles | bottlecap/auth.py:38-41 | `roles` is exactly the set of the stored roles, each lowercased |
| Auth.Options | bottlecap/auth.py:34-36 | `options` is the stored options, or the empty map when none are stored |
| Auth.HasRoles | bottlecap/auth.py:54-63 | `has_roles` holds exactly when every given role is held |
| Auth.HasAnyRole | bottlecap/auth.py:65-74 | `has_any_role` holds exactly when some given role is held |
| Auth.HasRoleCases | bottlecap/auth.py:43-52 | `has_role` holds exactly for a lowercased stored role; an argument with an upper-case letter is never held |
| Auth.RoleChecksRelate | bottlecap/auth.py:54-74 | with no arguments `has_roles` is true and `has_any_role` false; with some, all implies any; `has_roles` is inclusion in `roles` |
| Auth.GetToken | bottlecap/auth.py:98-122 | no header gives no token; a header without `Bearer:` or with only whitespace after it is a bad request with the matching detail; a usable token needs the public key; the token is the stripped text after the prefix |
| Auth.GetTokenAsWritten | bottlecap/auth.py:106-116 | as written, every bad-request outcome of `get_token_from_request` becomes a `TypeError` on the `error_detail` keyword; every other outcome is unchanged |
| Auth.BearerErrorsRaiseTypeError | bottlecap/auth.py:106-109 | a header without the prefix should give 400 but, as written, raises `TypeError` |
| Exceptions.UnknownKeyword | bottlecap/exceptions.py:7-8 | a keyword-argument call to an error class fails exactly when some keyword is not one `__init__` declares, and it names the first such keyword |
| Auth.TokenRoundTrip | bottlecap/auth.py:105-122 | a token written after `Bearer:` with surrounding whitespace reads back unchanged, or raises without a public key |
| Auth.PrefixIsExact | bottlecap/auth.py:106-116 | the prefix is case-sensitive and needs its colon, and a bare prefix is a malformed token |
| Auth.BearerErrorReport | bottlecap/auth.py:107-116 | every bad-request outcome carries one of the two bearer details and reports, as the raise intends, exactly status 400, code `bad_request`, the authorization-failed description and that detail as `error_detail` |
| Auth.BearerErrorExamples | tests/test_auth.py:106-122 | the headers `invalid` and `Bearer: ` give the two expected four-key error bodies |
| Exceptions.Construct | bottlecap/exceptions.py:7-19 | each given status, code or description replaces the class default and the rest keep it; `errors` and `original_exc` are stored as passed |
| Exceptions.AsDict | bottlecap/exceptions.py:21-26 | `to_dict` fails on the first missing attribute in build order; otherwise it has exactly the three fields, plus `errors` exactly when the list is non-empty |
| Exceptions.AsDictWithDetail | bottlecap/auth.py:107-116 | the dictionary of an error raised with `error_detail`, as intended: `to_dict`'s keys and values, plus `error_detail` holding the detail when one is given; it fails exactly when `to_dict` does |
| Exceptions.Error.constructor | bottlecap/exceptions.py:7-19 | the object's fields are those `Construct` gives |
| Exceptions.Error.ToDict | bottlecap/exceptions.py:21-26 | the dictionary built in place is `AsDict` of the object's fields |
| Exceptions.DefaultsTable | bottlecap/exceptions.py:29-68 | the defaults each class ends up with: none for `BaseError` and `ClientError`, `ServerError`'s for `ResponseSchemaError`, each client subclass its own |
| Exceptions.StatusFamilies | bottlecap/exceptions.py:29-68 | client errors carry a 4xx status wherever one is defined; server errors carry 500; every class is a `BaseError` |
| Exceptions.DefaultDict | bottlecap/exceptions.py:21-68 | built without arguments, each class with all three defaults reports exactly them |
| Exceptions.OverridesWin | bottlecap/exceptions.py:7-26 | a fully specified error reports what it was given whatever its class, with `errors` exactly when non-empty |
| Exceptions.ClientErrorNeedsAllFields | bottlecap/exceptions.py:21-37 | a `ClientError` has a dictionary exactly when status, code and description were all supplied, and fails on `error_code` first |

## Findings

| source | as written | input that shows it | evidently intended | confidence | as-written member | corrected member |
|---|---|---|---|---|---|---|
| bottlecap/auth.py:107-116 | both bad-request raises pass `error_detail=` to `BadRequestError`, whose constructor (bottlecap/exceptions.py:7-8) declares no such parameter, so the raise itself fails with `TypeError` | an `Authorization` header `Basic abc` | a `BadRequestError` whose dictionary is status 400, `bad_request`, "Request authorization failed" and the detail under `error_detail`, as tests/test_auth.py:106-122 expects | high (not executed) | Auth.GetTokenAsWritten, Auth.BearerErrorsRaiseTypeError | Auth.GetToken, Auth.BearerErrorReport |

## Left out

- Qualities must be readable. `MediaTypes.IsMatch` and `MediaTypes.Compare` require only the qualities they read: `is_match` reads the receiver's once the types are compatible and the argument's only when the receiver's is not 0, and `compare` once type, subtype and parameter count tie. The list operations built on sorting and pairing (`SortedByPrecedence`, `Greedy`, `BestMatch`, `FirstMatch`) and negotiation (`Readable`) require more: every `q` of every entry of the lists passed must be readable, including entries the source never weighs. So a request whose `Accept` header has an entry with an unreadable `q` that no declared type is type-compatible with lies outside the `Negotiate` and `Serve` theorems, although the source serves it. An example is `Accept: text/html, image/png;q=high` against an HTML renderer. The model reads text as `Decimal` does for plain decimals: surrounding whitespace is stripped, every underscore is dropped, then an optional sign and digits with an optional fraction are read. `Decimal` also accepts exponents, infinities, NaN and non-ASCII digits; those forms read as unreadable here. `Decimal` raises on text it cannot read, and so would the sort, the match or the negotiation that read it; that exception path is not modelled.
- Quality is an exact decimal (`real`). The `float` and `Decimal` parameter values that a caller could store directly are not modelled; only parsed text and integers are.
- Lowercasing (`Text.Lower`) covers ASCII letters only, and `str.isdigit` covers ASCII digits only. Other Unicode case mappings and digit characters are not modelled.
- `MediaType(dict)` construction from a mapping through `load` (bottlecap/mediatype.py:86-99) is not modelled; media types are built by parsing text or as values.
- `__repr__` (a debugging string) and `__hash__` (a hash of `str(self)`) are outside the operations modelled here.
- `MediaTypeList.__setitem__` and the `ensure_instance` checks are not modelled. They only check types, which Dafny's types already guarantee.
- `helpful.makelist` is outside this model. The model assumes it turns a list into that list, nothing into the empty list, and any other single value into a one-element list.
- Negotiation.Takes: `select_parser` passes the request's single `MediaType` to `first_match` (bottlecap/negotiation.py:170-171). `best_match` casts it with `cast_media_type_list` (bottlecap/mediatype.py:367). A `MediaType` is a non-empty `dict` (bottlecap/mediatype.py:48), so this reaches `MediaTypeList(m)` and `makelist(m)` (bottlecap/mediatype.py:307). The model, and so `Negotiation.SelectParser`, assumes `makelist` wraps it as the one-element list `[m]`. A `makelist` that expands a dict into its keys would instead try to parse `type`, `subtype` and `parameters` as media types.
- The parser and renderer codecs (`str.encode`, `JSONEncoder`, `JSONDecoder`), bottle's `request.forms`, and charset handling are abstract functions that may fail. `FormParser` returns a given form value.
- Bottle plumbing is not modelled: `HTTPError` and `HTTPResponse` construction, `get_exception().apply`, the status text of a plain value's response, and the request-scoped globals. Each negotiation error is a status code and reason with the framework's empty body (`ErrorResponse`).
- Negotiation.Respond: the rendered response is a copy of the raised or returned one. Aliasing between the handler's response object and the one rendered is not modelled.
- The view's `parser_classes` and `renderer_classes` are lists. The `None` class default is the empty list, which `or []` makes it anyway.
- The view machinery (`bottlecap/views.py`, `bottlecap/__init__.py`, `bottlecap/plugin.py`) is not part of this model. `View.pre_dispatch` and dispatch are the `dispatch` parameter.
- JWT encoding and decoding, `get_user_from_token`, the `apply` wrapper and `AuthenticationViewMixin` in `bottlecap/auth.py` are not part of this model. They call pyjwt and the framework.
- Auth.BearerErrorReport: the constructor has no `error_detail` parameter (see Findings). The intended dictionary adds the detail on top of `to_dict` (`Exceptions.AsDictWithDetail`). Where the error object would store the detail is not modelled.
- `User.guid` and `User.is_active` are stored data with no behaviour. `User.options` returns a `Box` copy, modelled as the map value itself: with value semantics, changing the returned copy cannot change the user.
- `BaseError.errors` is a list of messages, with Python truthiness as non-emptiness. Other error payloads, such as a mapping, are not modelled. `original_exc` is an optional description.
