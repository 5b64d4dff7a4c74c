/**
 * Content negotiation as a view performs it: the renderer is chosen from the
 * `Accept` header, the parser from the `Content-Type` header (or a guess), the
 * request body is parsed, and after dispatch the response is re-rendered.
 *
 * Parsers and renderers are values tagged with their declared media types;
 * their `parse` and `render` are abstract functions that may fail, standing
 * for the codec calls (`str.encode`, `JSONEncoder`, `JSONDecoder`) the
 * built-in classes make.
 */
module Negotiation {
  import opened Wrappers
  import opened Text
  import opened MediaTypes
  import opened MediaTypeLists

  newtype byte = x: int | 0 <= x < 256

  /** A request body as read from the wire. */
  type Bytes = seq<byte>

  // ---------------------------------------------------------------------------
  // Parsers and renderers
  // ---------------------------------------------------------------------------

  /** A parser class: its declared media types and its `parse`, whose `Failure` is an exception raised. */
  datatype Parser<P> = Parser(name: string, mediaTypes: seq<MediaType>, parse: Bytes -> Result<P, string>)

  /** A renderer class: its declared media types, its default media type and its `render`, which may raise. */
  datatype Renderer<!B> = Renderer(
    name: string,
    mediaTypes: seq<MediaType>,
    defaultMediaType: Option<MediaType>,
    render: B -> Result<B, string>)

  /** The `BaseParser` metaclass: the declared media types are cast to a list. */
  function MakeParser<P>(name: string, declared: ListValue, parse: Bytes -> Result<P, string>)
    : (r: Result<Parser<P>, ParseError>)
    ensures r.Success? <==> CastList(declared).Success?
    ensures r.Success? ==> r.value.mediaTypes == CastList(declared).value && r.value.parse == parse
  {
    match CastList(declared)
    case Failure(e) => Failure(e)
    case Success(types) => Success(Parser(name, types, parse))
  }

  /**
   * The `BaseRenderer` metaclass: the declared media types are cast to a list,
   * and a missing default becomes the first declared media type, or stays
   * missing when none is declared.
   */
  function MakeRenderer<B>(name: string, declared: ListValue, default: Option<MediaType>, render: B -> Result<B, string>)
    : (r: Result<Renderer<B>, ParseError>)
    ensures r.Success? <==> CastList(declared).Success?
    ensures r.Success? ==> r.value.mediaTypes == CastList(declared).value && r.value.render == render
    ensures r.Success? && default.Some? ==> r.value.defaultMediaType == default
    ensures r.Success? && default.None? ==>
      && (r.value.defaultMediaType.None? <==> r.value.mediaTypes == [])
      && (r.value.defaultMediaType.Some? ==> r.value.defaultMediaType.value == r.value.mediaTypes[0])
  {
    match CastList(declared)
    case Failure(e) => Failure(e)
    case Success(types) =>
      var chosen := if default.Some? then default else if |types| > 0 then Some(types[0]) else None;
      Success(Renderer(name, types, chosen, render))
  }

  const OctetStream := MediaType("application", "octet-stream", [])
  const ApplicationJson := MediaType("application", "json", [])
  const TextPlain := MediaType("text", "plain", [])
  const TextHtml := MediaType("text", "html", [])
  const FormUrlencoded := MediaType("application", "x-www-form-urlencoded", [])
  const MultipartFormData := MediaType("multipart", "form-data", [])

  /** `PlainTextRenderer`: renders with the text encoder. */
  function PlainTextRenderer<B>(encode: B -> Result<B, string>): Result<Renderer<B>, ParseError> {
    MakeRenderer("PlainTextRenderer", Raw(Header(ToString(TextPlain))), None, encode)
  }

  /** `HTMLRenderer`: encodes a truthy body and renders a falsy one as `none`. */
  function HtmlRenderer<B>(encode: B -> Result<B, string>, truthy: B -> bool, none: B): Result<Renderer<B>, ParseError> {
    MakeRenderer("HTMLRenderer", Raw(Header(ToString(TextHtml))), None,
      (body: B) => if truthy(body) then encode(body) else Success(none))
  }

  /** `JSONRenderer`: renders `none` as `none` and anything else with the JSON encoder. */
  function JsonRenderer<B(==)>(encode: B -> Result<B, string>, none: B): Result<Renderer<B>, ParseError> {
    MakeRenderer("JSONRenderer", Raw(Header(ToString(ApplicationJson))), None,
      (body: B) => if body == none then Success(none) else encode(body))
  }

  /** `OctetStreamParser`: the body itself is the parsed value. */
  function OctetStreamParser<P>(asValue: Bytes -> P): Result<Parser<P>, ParseError> {
    MakeParser("OctetStreamParser", Raw(Header(ToString(OctetStream))), (body: Bytes) => Success(asValue(body)))
  }

  /** `JSONParser`: a non-empty body goes to the JSON decoder; an empty one parses to `none`. */
  function JsonParser<P>(decode: Bytes -> Result<P, string>, none: P): Result<Parser<P>, ParseError> {
    MakeParser("JSONParser", Raw(Header(ToString(ApplicationJson))),
      (body: Bytes) => if |body| > 0 then decode(body) else Success(none))
  }

  /** `FormParser`: declares both form media types, built from their names; the parsed value is the framework's form data. */
  function FormParser<P>(forms: P): Result<Parser<P>, ParseError> {
    MakeParser("FormParser",
      Raw(Items([FromParsed(FormUrlencoded), FromParsed(MultipartFormData)])),
      (body: Bytes) => Success(forms))
  }

  /** The names the built-in renderer classes declare, written out. */
  lemma RendererTypeNames()
    ensures ToString(TextPlain) == "text/plain"
    ensures ToString(TextHtml) == "text/html"
    ensures ToString(ApplicationJson) == "application/json"
  {
  }

  /** The names the built-in parser classes declare, written out. */
  lemma ParserTypeNames()
    ensures ToString(OctetStream) == "application/octet-stream"
    ensures ToString(FormUrlencoded) == "application/x-www-form-urlencoded"
    ensures ToString(MultipartFormData) == "multipart/form-data"
  {
  }

  /** A name of lower-case letters, dashes and stars, as the built-in media types use. */
  predicate SimpleToken(s: string) {
    |s| > 0 && forall i :: 0 <= i < |s| ==> ('a' <= s[i] <= 'z') || s[i] == '-' || s[i] == '*'
  }

  /** A parameterless media type of simple names reads back from a header as the one-element list. */
  lemma SimpleHeader(m: MediaType)
    requires SimpleToken(m.typ) && SimpleToken(m.subtype) && m.params == [] && (m.typ == "*" ==> m.subtype == "*")
    ensures MakeList(Header(ToString(m))) == Success([m])
    ensures CastList(Raw(Header(ToString(m)))) == Success([m])
  {
    HeaderRoundTrip([m]);
    assert JoinTypes([m]) == ToString(m);
  }

  /** `PlainTextRenderer` declares `text/plain` and defaults to it. */
  lemma PlainTextDeclaration<B>(encode: B -> Result<B, string>)
    ensures PlainTextRenderer(encode).Success?
    ensures PlainTextRenderer(encode).value.mediaTypes == [TextPlain]
    ensures PlainTextRenderer(encode).value.defaultMediaType == Some(TextPlain)
  {
    SimpleHeader(TextPlain);
  }

  /** `HTMLRenderer` declares `text/html` and defaults to it. */
  lemma HtmlDeclaration<B>(encode: B -> Result<B, string>, truthy: B -> bool, none: B)
    ensures HtmlRenderer(encode, truthy, none).Success?
    ensures HtmlRenderer(encode, truthy, none).value.mediaTypes == [TextHtml]
    ensures HtmlRenderer(encode, truthy, none).value.defaultMediaType == Some(TextHtml)
  {
    SimpleHeader(TextHtml);
  }

  /** `JSONRenderer` declares `application/json` and defaults to it. */
  lemma JsonRendererDeclaration<B>(encode: B -> Result<B, string>, none: B)
    ensures JsonRenderer(encode, none).Success?
    ensures JsonRenderer(encode, none).value.mediaTypes == [ApplicationJson]
    ensures JsonRenderer(encode, none).value.defaultMediaType == Some(ApplicationJson)
  {
    SimpleHeader(ApplicationJson);
  }

  /** `OctetStreamParser` declares `application/octet-stream`. */
  lemma OctetStreamDeclaration<P>(asValue: Bytes -> P)
    ensures OctetStreamParser(asValue).Success?
    ensures OctetStreamParser(asValue).value.mediaTypes == [OctetStream]
  {
    SimpleHeader(OctetStream);
  }

  /** `JSONParser` declares `application/json`. */
  lemma JsonParserDeclaration<P>(decode: Bytes -> Result<P, string>, none: P)
    ensures JsonParser(decode, none).Success?
    ensures JsonParser(decode, none).value.mediaTypes == [ApplicationJson]
  {
    SimpleHeader(ApplicationJson);
  }

  /** `FormParser` declares both form media types, in order. */
  lemma FormDeclaration<P>(forms: P)
    ensures FormParser(forms).Success?
    ensures FormParser(forms).value.mediaTypes == [FormUrlencoded, MultipartFormData]
  {
  }

  // ---------------------------------------------------------------------------
  // DefaultContentNegotiation
  // ---------------------------------------------------------------------------

  /** `guess_content_type`: a non-empty body is taken to be `application/octet-stream`; an empty one gives nothing. */
  function GuessContentType(body: Bytes): (r: Option<MediaType>)
    ensures r.Some? <==> |body| > 0
    ensures r.Some? ==> r.value == OctetStream
  {
    if |body| > 0 then Some(OctetStream) else None
  }

  /** The octet-stream parser is chosen for the guessed type. */
  lemma GuessedTypeIsOctetStream<P>(body: Bytes, asValue: Bytes -> P)
    requires |body| > 0
    ensures OctetStreamParser(asValue).Success? && OctetStreamParser(asValue).value.mediaTypes == [OctetStream]
    ensures Weighable(OctetStream) && ParsersReadable([OctetStreamParser(asValue).value])
    ensures Weighable(GuessContentType(body).value)
    ensures SelectParser(GuessContentType(body).value, [OctetStreamParser(asValue).value]) == Some(0)
  {
    OctetStreamDeclaration(asValue);
    var parser := OctetStreamParser(asValue).value;
    assert IsMatch(OctetStream, OctetStream, false, false);
    SelectParserFinds(OctetStream, [parser]);
    assert Supports(parser.mediaTypes, OctetStream);
  }

  predicate ParsersReadable<P>(parsers: seq<Parser<P>>) {
    forall i :: 0 <= i < |parsers| ==> AllWeighable(parsers[i].mediaTypes)
  }

  predicate RenderersReadable<B>(renderers: seq<Renderer<B>>) {
    forall i :: 0 <= i < |renderers| ==> AllWeighable(renderers[i].mediaTypes)
  }

  /** Some declared media type matches `m` (the declared type is the receiver). */
  predicate Supports(types: seq<MediaType>, m: MediaType)
    requires AllWeighable(types) && Weighable(m)
  {
    exists a :: a in types && IsMatch(a, m, false, false)
  }

  /** A parser declaring `types` takes the request's media type `m` when `first_match` pairs them. */
  predicate Takes(types: seq<MediaType>, m: MediaType) {
    AllWeighable(types) && Weighable(m) && FirstMatch(types, [m], false, false).Some?
  }

  /** `select_parser`: the position of the first parser whose declared media types have a match for `m`. */
  function SelectParser<P>(m: MediaType, parsers: seq<Parser<P>>): (r: Option<nat>)
    requires Weighable(m) && ParsersReadable(parsers)
    ensures r.Some? ==> r.value < |parsers| && Takes(parsers[r.value].mediaTypes, m)
    ensures r.Some? ==> forall j :: 0 <= j < r.value ==> !Takes(parsers[j].mediaTypes, m)
    ensures r.None? ==> forall j :: 0 <= j < |parsers| ==> !Takes(parsers[j].mediaTypes, m)
  {
    FirstIndex(parsers, (p: Parser<P>) => Takes(p.mediaTypes, m), 0)
  }

  /** The parser chosen is the first one, in list order, that declares a media type matching the request's. */
  lemma SelectParserFinds<P>(m: MediaType, parsers: seq<Parser<P>>)
    requires Weighable(m) && ParsersReadable(parsers)
    ensures SelectParser(m, parsers).Some? <==> exists i :: 0 <= i < |parsers| && Supports(parsers[i].mediaTypes, m)
    ensures SelectParser(m, parsers).Some? ==>
      var i := SelectParser(m, parsers).value;
      Supports(parsers[i].mediaTypes, m) && forall j :: 0 <= j < i ==> !Supports(parsers[j].mediaTypes, m)
  {
    forall i | 0 <= i < |parsers|
      ensures Takes(parsers[i].mediaTypes, m) <==> Supports(parsers[i].mediaTypes, m)
    {
      FirstMatchOfOne(parsers[i].mediaTypes, m, false, false);
    }
  }

  /**
   * The media type a renderer declaring `types` offers for the `Accept` list:
   * its own half of the first matching pair, if any.
   */
  function Offer(types: seq<MediaType>, accept: seq<MediaType>): Option<MediaType> {
    if AllWeighable(types) && AllWeighable(accept) then
      match FirstMatch(types, accept, false, false)
      case None => None
      case Some(pair) => Some(pair.1)
    else None
  }

  /** The loop of `select_renderer` from position `from` on: the first renderer with an offer, and the offer. */
  function FirstOffer<B>(renderers: seq<Renderer<B>>, offer: Renderer<B> -> Option<MediaType>, from: nat): (r: Option<(nat, MediaType)>)
    requires from <= |renderers|
    decreases |renderers| - from
    ensures r.Some? ==> from <= r.value.0 < |renderers| && offer(renderers[r.value.0]) == Some(r.value.1)
    ensures r.Some? ==> forall j :: from <= j < r.value.0 ==> offer(renderers[j]).None?
    ensures r.None? ==> forall j :: from <= j < |renderers| ==> offer(renderers[j]).None?
  {
    if from == |renderers| then None
    else
      var found := offer(renderers[from]);
      var rest := FirstOffer(renderers, offer, from + 1);
      if found.Some? then Some((from, found.value)) else rest
  }

  /**
   * `select_renderer`: the position of the first renderer whose declared media
   * types have a match in the `Accept` list, with that renderer's own matched
   * media type.
   */
  function SelectRenderer<B>(accept: seq<MediaType>, renderers: seq<Renderer<B>>): (r: Option<(nat, MediaType)>)
    requires AllWeighable(accept) && RenderersReadable(renderers)
    ensures r.Some? ==> r.value.0 < |renderers| && Offer(renderers[r.value.0].mediaTypes, accept) == Some(r.value.1)
    ensures r.Some? ==> forall j :: 0 <= j < r.value.0 ==> Offer(renderers[j].mediaTypes, accept).None?
    ensures r.None? ==> forall j :: 0 <= j < |renderers| ==> Offer(renderers[j].mediaTypes, accept).None?
  {
    FirstOffer(renderers, (r: Renderer<B>) => Offer(r.mediaTypes, accept), 0)
  }

  /** Some declared media type matches some entry of the `Accept` list. */
  predicate Acceptable(types: seq<MediaType>, accept: seq<MediaType>)
    requires AllWeighable(types) && AllWeighable(accept)
  {
    exists a, b :: a in types && b in accept && IsMatch(a, b, false, false)
  }

  /**
   * The renderer chosen is the first acceptable one in list order, and the
   * media type chosen is one the renderer declares (not the `Accept` entry):
   * it matches an entry, and outranks every other declared type that does.
   */
  lemma SelectRendererFinds<B>(accept: seq<MediaType>, renderers: seq<Renderer<B>>)
    requires AllWeighable(accept) && RenderersReadable(renderers)
    ensures SelectRenderer(accept, renderers).Some? <==>
      exists i :: 0 <= i < |renderers| && Acceptable(renderers[i].mediaTypes, accept)
    ensures SelectRenderer(accept, renderers).Some? ==>
      var (i, t) := SelectRenderer(accept, renderers).value;
      var own := renderers[i].mediaTypes;
      && (forall j :: 0 <= j < i ==> !Acceptable(renderers[j].mediaTypes, accept))
      && t in own
      && (exists b :: b in accept && IsMatch(t, b, false, false))
      && forall a, b :: a in own && b in accept && IsMatch(a, b, false, false) ==> Precedes(t, a)
  {
    forall i | 0 <= i < |renderers|
      ensures Offer(renderers[i].mediaTypes, accept).Some? <==> Acceptable(renderers[i].mediaTypes, accept)
    {
      FirstMatchFinds(renderers[i].mediaTypes, accept, false, false);
    }
    if SelectRenderer(accept, renderers).Some? {
      var (i, t) := SelectRenderer(accept, renderers).value;
      FirstMatchOutranks(renderers[i].mediaTypes, accept, false, false);
    }
  }

  // ---------------------------------------------------------------------------
  // pre_dispatch
  // ---------------------------------------------------------------------------

  /** The `HTTPError`s negotiation raises. */
  datatype NegotiationError =
    | InvalidAccept
    | NotAcceptable
    | InvalidContentType
    | UnsupportedMediaType
    | InvalidBody(reason: string)

  const InvalidAcceptText: string := "Invalid Accept"
  const NotAcceptableText: string := "Not Acceptable"
  const InvalidContentTypeText: string := "Invalid Content Type"
  const UnsupportedMediaTypeText: string := "Unsupported Media Type"
  const InvalidBodyText: string := "Invalid Body"

  /** The status line each error is raised with. */
  function ErrorStatus(e: NegotiationError): (nat, string) {
    match e
    case InvalidAccept => (400, InvalidAcceptText)
    case NotAcceptable => (406, NotAcceptableText)
    case InvalidContentType => (400, InvalidContentTypeText)
    case UnsupportedMediaType => (415, UnsupportedMediaTypeText)
    case InvalidBody(_) => (400, InvalidBodyText)
  }

  /** The headers and body of a request, as far as negotiation reads them. */
  datatype Request = Request(accept: Option<string>, contentType: Option<string>, body: Bytes)

  /** The view's class attributes (`None` lists are empty lists here). */
  datatype Config<P, !B> = Config(
    parsers: seq<Parser<P>>,
    renderers: seq<Renderer<B>>,
    mismatchRenderer: Option<Renderer<B>>,
    renderErrors: bool)

  /** The negotiation context's fields, `request.body_parsed`, and the error `pre_dispatch` raised, if any. */
  datatype Negotiation<P, !B> = Negotiation(
    requestAccept: Option<seq<MediaType>>,
    renderer: Option<Renderer<B>>,
    responseContentType: Option<MediaType>,
    requestContentType: Option<MediaType>,
    parser: Option<Parser<P>>,
    bodyParsed: Option<P>,
    error: Option<NegotiationError>)

  /** A freshly made `ContentNegotiationContext`: every field is none. */
  function Initial<P, B>(): Negotiation<P, B> {
    Negotiation(None, None, None, None, None, None, None)
  }

  /** The any/any wildcard, what a missing `Accept` header stands for. */
  const AnyMediaType := MediaType("*", "*", [])

  /** The `Accept` value assumed when a request has none: the any/any wildcard written out. */
  const AnyAccept: string := ToString(AnyMediaType)

  /** The `Accept` header, or the any/any wildcard when absent. */
  function AcceptHeader(req: Request): string {
    if req.accept.Some? then req.accept.value else AnyAccept
  }

  /** The `Content-Type` header is present and non-empty. */
  predicate HasContentType(req: Request) {
    req.contentType.Some? && req.contentType.value != ""
  }

  /**
   * Every quality negotiation may compare can be read: those of the declared
   * media types, of the parsed `Accept` entries and of the parsed `Content-Type`.
   */
  predicate Readable<P, B>(cfg: Config<P, B>, req: Request) {
    && ParsersReadable(cfg.parsers)
    && RenderersReadable(cfg.renderers)
    && (MakeList(Header(AcceptHeader(req))).Success? ==> AllWeighable(MakeList(Header(AcceptHeader(req))).value))
    && (HasContentType(req) && Parse(req.contentType.value).Success? ==> Weighable(Parse(req.contentType.value).value))
  }

  /** The renderer step: a matching renderer, else the mismatch renderer, else 406 when renderers are declared. */
  function ChooseRenderer<P, B>(cfg: Config<P, B>, accept: seq<MediaType>): (r: Negotiation<P, B>)
    requires RenderersReadable(cfg.renderers) && AllWeighable(accept)
    ensures r.requestAccept == Some(accept)
    ensures r.requestContentType.None? && r.parser.None? && r.bodyParsed.None?
    ensures r.error.None? || r.error == Some(NotAcceptable)
    ensures r.error.Some? ==> r.renderer.None?
  {
    var n := Initial<P, B>().(requestAccept := Some(accept));
    if |accept| == 0 then n
    else
      match SelectRenderer(accept, cfg.renderers)
      case Some((i, t)) => n.(renderer := Some(cfg.renderers[i]), responseContentType := Some(t))
      case None =>
        if |cfg.renderers| == 0 then n
        else
          match cfg.mismatchRenderer
          case None => n.(error := Some(NotAcceptable))
          case Some(fallback) => n.(renderer := Some(fallback), responseContentType := fallback.defaultMediaType)
  }

  /** The request type: the parsed `Content-Type`, else the guess for a non-empty body. */
  function RequestType(req: Request): Option<MediaType>
    requires HasContentType(req) ==> Parse(req.contentType.value).Success?
  {
    if HasContentType(req) then Some(Parse(req.contentType.value).value)
    else if |req.body| > 0 then GuessContentType(req.body)
    else None
  }

  /** The request steps after the renderer step: read `Content-Type`, choose a parser, parse the body. */
  function ReadRequest<P, B>(cfg: Config<P, B>, req: Request, n: Negotiation<P, B>): (r: Negotiation<P, B>)
    requires ParsersReadable(cfg.parsers)
    requires HasContentType(req) && Parse(req.contentType.value).Success? ==> Weighable(Parse(req.contentType.value).value)
    ensures r.requestAccept == n.requestAccept && r.renderer == n.renderer && r.responseContentType == n.responseContentType
    ensures r.error == n.error || r.error == Some(InvalidContentType) || r.error == Some(UnsupportedMediaType) || (r.error.Some? && r.error.value.InvalidBody?)
    ensures r.requestContentType.Some? && r.requestContentType != n.requestContentType ==> Weighable(r.requestContentType.value)
    ensures !(HasContentType(req) && Parse(req.contentType.value).Failure?) ==> r.requestContentType == RequestType(req)
    ensures r.parser.Some? && n.parser.None? ==>
      && r.requestContentType.Some? && Weighable(r.requestContentType.value)
      && SelectParser(r.requestContentType.value, cfg.parsers).Some?
      && r.parser.value == cfg.parsers[SelectParser(r.requestContentType.value, cfg.parsers).value]
  {
    if HasContentType(req) && Parse(req.contentType.value).Failure? then n.(error := Some(InvalidContentType))
    else
      var requestType := RequestType(req);
      var typed := n.(requestContentType := requestType);
      if requestType.None? then typed
      else
        match SelectParser(requestType.value, cfg.parsers)
        case None => typed.(error := Some(UnsupportedMediaType))
        case Some(i) =>
          var chosen := typed.(parser := Some(cfg.parsers[i]));
          match cfg.parsers[i].parse(req.body)
          case Failure(reason) => chosen.(error := Some(InvalidBody(reason)))
          case Success(v) => chosen.(bodyParsed := Some(v))
  }

  /**
   * Everything after the `Accept` list is read: the renderer step, then the
   * request step unless the renderer step raised. The renderer fields are
   * the renderer step's, and a 406 stops before `Content-Type` is looked at.
   */
  function AfterAccept<P, B>(cfg: Config<P, B>, req: Request, accept: seq<MediaType>): (r: Negotiation<P, B>)
    requires RenderersReadable(cfg.renderers) && ParsersReadable(cfg.parsers) && AllWeighable(accept)
    requires HasContentType(req) && Parse(req.contentType.value).Success? ==> Weighable(Parse(req.contentType.value).value)
    ensures r.error != Some(InvalidAccept)
    ensures r.requestAccept == Some(accept)
    ensures r.renderer == ChooseRenderer(cfg, accept).renderer
    ensures r.responseContentType == ChooseRenderer(cfg, accept).responseContentType
    ensures r.error == Some(NotAcceptable) <==> ChooseRenderer(cfg, accept).error == Some(NotAcceptable)
    ensures r.error == Some(NotAcceptable) ==> r.requestContentType.None? && r.parser.None? && r.bodyParsed.None?
  {
    var n := ChooseRenderer(cfg, accept);
    if n.error.Some? then n else ReadRequest(cfg, req, n)
  }

  /**
   * `pre_dispatch` as a function of the view's attributes and the request.
   * The first check: an unreadable `Accept` header is rejected before anything
   * else is set, and no later step raises that error.
   */
  function Negotiate<P, B>(cfg: Config<P, B>, req: Request): (r: Negotiation<P, B>)
    requires Readable(cfg, req)
    ensures r.error == Some(InvalidAccept) <==> MakeList(Header(AcceptHeader(req))).Failure?
    ensures MakeList(Header(AcceptHeader(req))).Failure? ==> r == Initial().(error := Some(InvalidAccept))
  {
    match MakeList(Header(AcceptHeader(req)))
    case Failure(_) => Initial().(error := Some(InvalidAccept))
    case Success(accept) => AfterAccept(cfg, req, accept)
  }

  /** `ContentNegotiationContext` together with `request.body_parsed`, filled in step by step by `pre_dispatch`. */
  class NegotiationContext<P, B> {
    var requestAccept: Option<seq<MediaType>>
    var renderer: Option<Renderer<B>>
    var responseContentType: Option<MediaType>
    var requestContentType: Option<MediaType>
    var parser: Option<Parser<P>>
    var bodyParsed: Option<P>

    /** Every field starts out none. */
    constructor ()
      ensures State(None) == Initial()
    {
      requestAccept := None;
      renderer := None;
      responseContentType := None;
      requestContentType := None;
      parser := None;
      bodyParsed := None;
    }

    /** The fields, with the error raised. */
    function State(error: Option<NegotiationError>): Negotiation<P, B>
      reads this
    {
      Negotiation(requestAccept, renderer, responseContentType, requestContentType, parser, bodyParsed, error)
    }

    /** The renderer part of `pre_dispatch`, once the `Accept` list is read. */
    method AcceptStep(cfg: Config<P, B>, accept: seq<MediaType>) returns (error: Option<NegotiationError>)
      requires RenderersReadable(cfg.renderers) && AllWeighable(accept)
      requires State(None) == Initial()
      modifies this
      ensures State(error) == ChooseRenderer(cfg, accept)
    {
      error := None;
      requestAccept := Some(accept);
      if |accept| > 0 {
        var selected := SelectRenderer(accept, cfg.renderers);
        if selected.Some? {
          renderer := Some(cfg.renderers[selected.value.0]);
          responseContentType := Some(selected.value.1);
        } else if |cfg.renderers| > 0 {
          if cfg.mismatchRenderer.None? {
            error := Some(NotAcceptable);
            return;
          }
          renderer := cfg.mismatchRenderer;
          responseContentType := cfg.mismatchRenderer.value.defaultMediaType;
        }
      }
    }

    /** The request part of `pre_dispatch`: the `Content-Type`, the parser and the parsed body. */
    method RequestStep(cfg: Config<P, B>, req: Request) returns (error: Option<NegotiationError>)
      requires ParsersReadable(cfg.parsers)
      requires HasContentType(req) && Parse(req.contentType.value).Success? ==> Weighable(Parse(req.contentType.value).value)
      requires requestContentType.None? && parser.None? && bodyParsed.None?
      modifies this
      ensures State(error) == ReadRequest(cfg, req, old(State(None)))
    {
      error := None;
      var hasContentType := HasContentType(req);
      if hasContentType {
        var parsedType := Parse(req.contentType.value);
        if parsedType.Failure? {
          error := Some(InvalidContentType);
          return;
        }
        requestContentType := Some(parsedType.value);
      }
      if |req.body| > 0 && !hasContentType {
        requestContentType := GuessContentType(req.body);
      }

      if requestContentType.Some? {
        var index := SelectParser(requestContentType.value, cfg.parsers);
        if index.None? {
          error := Some(UnsupportedMediaType);
          return;
        }
        parser := Some(cfg.parsers[index.value]);
      }

      if parser.Some? {
        var parsed := parser.value.parse(req.body);
        if parsed.Failure? {
          error := Some(InvalidBody(parsed.error));
          return;
        }
        bodyParsed := Some(parsed.value);
      }
    }

    /**
     * `pre_dispatch`: fills the fields in order and stops at the first error,
     * which it returns rather than raises; the fields it leaves are exactly
     * those of `Negotiate`.
     */
    method PreDispatch(cfg: Config<P, B>, req: Request) returns (error: Option<NegotiationError>)
      requires Readable(cfg, req)
      requires State(None) == Initial()
      modifies this
      ensures State(error) == Negotiate(cfg, req)
    {
      var parsedAccept := MakeList(Header(AcceptHeader(req)));
      if parsedAccept.Failure? {
        return Some(InvalidAccept);
      }
      error := AcceptStep(cfg, parsedAccept.value);
      if error.Some? {
        return;
      }
      error := RequestStep(cfg, req);
    }
  }

  /** An empty `Accept` header, unlike a missing one, is rejected. */
  lemma EmptyAcceptRejected<P, B>(cfg: Config<P, B>, req: Request)
    requires Readable(cfg, req) && req.accept == Some("")
    ensures Negotiate(cfg, req) == Initial().(error := Some(InvalidAccept))
  {
    CastListOfEmpty(Header(""));
  }

  /** The default `Accept` value is the three characters star, slash, star. */
  lemma WildcardText()
    ensures AnyAccept == "*/*"
  {
  }

  /** The default `Accept` header reads as the one-element list of the wildcard. */
  lemma WildcardAccept()
    ensures MakeList(Header(AnyAccept)) == Success([AnyMediaType])
  {
    SimpleHeader(AnyMediaType);
  }

  /** With no `Accept` header the request is negotiated as one accepting the any/any wildcard. */
  lemma MissingAcceptIsWildcard(req: Request)
    requires req.accept.None?
    ensures AcceptHeader(req) == AnyAccept
    ensures MakeList(Header(AcceptHeader(req))) == Success([AnyMediaType])
  {
    WildcardAccept();
  }

  /**
   * Against the wildcard, the first renderer is chosen as soon as it declares
   * a media type with no parameters besides `q` and a quality in (0, 1].
   */
  lemma WildcardPicksFirstRenderer<P, B>(cfg: Config<P, B>, a: MediaType)
    requires RenderersReadable(cfg.renderers)
    requires |cfg.renderers| > 0 && a in cfg.renderers[0].mediaTypes
    requires WithoutQ(a.params) == [] && 0.0 < Quality(a) <= 1.0
    ensures ChooseRenderer(cfg, [AnyMediaType]).renderer == Some(cfg.renderers[0])
    ensures ChooseRenderer(cfg, [AnyMediaType]).error.None?
  {
    assert IsMatch(a, AnyMediaType, false, false);
    SelectRendererFinds([AnyMediaType], cfg.renderers);
    assert Acceptable(cfg.renderers[0].mediaTypes, [AnyMediaType]);
  }

  /**
   * The renderer step: the first acceptable renderer is chosen; when none is,
   * with renderers declared, the mismatch renderer is used with its default
   * media type, or 406 is raised without a mismatch renderer; with none
   * declared, or an empty `Accept` list, there is no renderer and no error.
   */
  lemma RendererChoice<P, B>(cfg: Config<P, B>, accept: seq<MediaType>)
    requires RenderersReadable(cfg.renderers) && AllWeighable(accept)
    ensures var n := ChooseRenderer(cfg, accept);
      var acceptable := exists i :: 0 <= i < |cfg.renderers| && Acceptable(cfg.renderers[i].mediaTypes, accept);
      && (|accept| == 0 || |cfg.renderers| == 0 ==> n.renderer.None? && n.error.None?)
      && (|accept| > 0 && acceptable ==>
            n.error.None? && n.renderer.Some? && n.responseContentType.Some? &&
            exists i :: 0 <= i < |cfg.renderers| && n.renderer.value == cfg.renderers[i] &&
              Acceptable(cfg.renderers[i].mediaTypes, accept) &&
              n.responseContentType.value in cfg.renderers[i].mediaTypes &&
              forall j :: 0 <= j < i ==> !Acceptable(cfg.renderers[j].mediaTypes, accept))
      && (|accept| > 0 && !acceptable && |cfg.renderers| > 0 && cfg.mismatchRenderer.Some? ==>
            n.error.None? && n.renderer == cfg.mismatchRenderer &&
            n.responseContentType == cfg.mismatchRenderer.value.defaultMediaType)
      && (|accept| > 0 && !acceptable && |cfg.renderers| > 0 && cfg.mismatchRenderer.None? ==>
            n == Initial().(requestAccept := Some(accept), error := Some(NotAcceptable)))
  {
    SelectRendererFinds(accept, cfg.renderers);
  }

  /** The request step rejects a `Content-Type` header exactly when it is present, non-empty and unreadable. */
  lemma InvalidContentTypeHandling<P, B>(cfg: Config<P, B>, req: Request, n: Negotiation<P, B>)
    requires ParsersReadable(cfg.parsers)
    requires HasContentType(req) && Parse(req.contentType.value).Success? ==> Weighable(Parse(req.contentType.value).value)
    requires n.error.None?
    ensures HasContentType(req) && Parse(req.contentType.value).Failure?
        <==> ReadRequest(cfg, req, n).error == Some(InvalidContentType)
  {
  }

  /** A readable `Content-Type` header is the request type. */
  lemma DeclaredRequestType<P, B>(cfg: Config<P, B>, req: Request, n: Negotiation<P, B>)
    requires ParsersReadable(cfg.parsers)
    requires HasContentType(req) && Parse(req.contentType.value).Success? ==> Weighable(Parse(req.contentType.value).value)
    requires n.error.None? && n.requestContentType.None? && n.parser.None? && n.bodyParsed.None?
    ensures HasContentType(req) && Parse(req.contentType.value).Success? ==>
      ReadRequest(cfg, req, n).requestContentType == Some(Parse(req.contentType.value).value)
  {
  }

  /** With no usable `Content-Type` header, a non-empty body is guessed to be an octet stream. */
  lemma GuessedRequestType<P, B>(cfg: Config<P, B>, req: Request, n: Negotiation<P, B>)
    requires ParsersReadable(cfg.parsers)
    requires !HasContentType(req) && |req.body| > 0
    ensures ReadRequest(cfg, req, n).requestContentType == Some(OctetStream)
  {
  }

  /** With neither a `Content-Type` header nor a body, the request step changes nothing. */
  lemma NoRequestType<P, B>(cfg: Config<P, B>, req: Request, n: Negotiation<P, B>)
    requires ParsersReadable(cfg.parsers)
    requires !HasContentType(req) && |req.body| == 0 && n.requestContentType.None?
    ensures ReadRequest(cfg, req, n) == n
  {
  }

  /** A request type is rejected with 415 exactly when no parser supports it. */
  lemma UnsupportedHandling<P, B>(cfg: Config<P, B>, req: Request, n: Negotiation<P, B>)
    requires ParsersReadable(cfg.parsers)
    requires HasContentType(req) && Parse(req.contentType.value).Success? ==> Weighable(Parse(req.contentType.value).value)
    requires n.error.None?
    requires ReadRequest(cfg, req, n).requestContentType.Some?
    requires ReadRequest(cfg, req, n).error != Some(InvalidContentType)
    ensures var r := ReadRequest(cfg, req, n);
      r.error == Some(UnsupportedMediaType) <==>
        forall i :: 0 <= i < |cfg.parsers| ==> !Supports(cfg.parsers[i].mediaTypes, r.requestContentType.value)
  {
    var r := ReadRequest(cfg, req, n);
    SelectParserFinds(r.requestContentType.value, cfg.parsers);
  }

  /** Once a parser is chosen, a parser that raises is rejected as an invalid body; otherwise the parsed body is recorded. */
  lemma BodyHandling<P, B>(cfg: Config<P, B>, req: Request, n: Negotiation<P, B>)
    requires ParsersReadable(cfg.parsers)
    requires HasContentType(req) && Parse(req.contentType.value).Success? ==> Weighable(Parse(req.contentType.value).value)
    requires n.error.None? && n.parser.None? && n.bodyParsed.None?
    ensures var r := ReadRequest(cfg, req, n);
      r.parser.Some? ==>
        match r.parser.value.parse(req.body)
        case Failure(reason) => r.error == Some(InvalidBody(reason)) && r.bodyParsed.None?
        case Success(v) => r.error.None? && r.bodyParsed == Some(v)
  {
  }

  /** The parser chosen is the first, in list order, that supports the request type. */
  lemma ParserChoice<P, B>(cfg: Config<P, B>, req: Request, n: Negotiation<P, B>)
    requires ParsersReadable(cfg.parsers)
    requires HasContentType(req) && Parse(req.contentType.value).Success? ==> Weighable(Parse(req.contentType.value).value)
    requires n.parser.None?
    requires ReadRequest(cfg, req, n).parser.Some?
    ensures var r := ReadRequest(cfg, req, n);
      && r.requestContentType.Some?
      && exists i :: 0 <= i < |cfg.parsers| && r.parser.value == cfg.parsers[i] &&
           Supports(cfg.parsers[i].mediaTypes, r.requestContentType.value) &&
           forall j :: 0 <= j < i ==> !Supports(cfg.parsers[j].mediaTypes, r.requestContentType.value)
  {
    var r := ReadRequest(cfg, req, n);
    var t := r.requestContentType.value;
    SelectParserFinds(t, cfg.parsers);
    var i := SelectParser(t, cfg.parsers).value;
    assert r.parser.value == cfg.parsers[i];
  }

  // ---------------------------------------------------------------------------
  // __call__
  // ---------------------------------------------------------------------------

  /** An HTTP response: status line, body and content type (none keeps the framework's default). */
  datatype Response<B> = Response(status: nat, reason: string, body: B, contentType: Option<MediaType>)

  /** How a handler, or the whole call, ends: a plain value, a response returned or raised, or another exception. */
  datatype Outcome<B> =
    | Value(value: B)
    | Returned(response: Response<B>)
    | Raised(response: Response<B>)
    | Crashed(message: string)

  /** The response `HTTPError` builds for a negotiation error, with the framework's empty body. */
  function ErrorResponse<B>(e: NegotiationError, emptyBody: B): Response<B> {
    Response(ErrorStatus(e).0, ErrorStatus(e).1, emptyBody, None)
  }

  /** The body replaced by its rendering and the content type by the negotiated one; a raising renderer escapes. */
  function Rendered<B>(renderer: Renderer<B>, responseType: Option<MediaType>, response: Response<B>): Outcome<B> {
    match renderer.render(response.body)
    case Failure(message) => Crashed(message)
    case Success(body) => Returned(response.(body := body, contentType := responseType))
  }

  /**
   * The part of `__call__` after the view ran: a raised response is re-raised
   * unless errors are rendered and a renderer was chosen; with a renderer, a
   * plain value is wrapped in a 200 response and the body is rendered.
   */
  function AfterDispatch<B>(renderer: Option<Renderer<B>>, responseType: Option<MediaType>, renderErrors: bool,
                            outcome: Outcome<B>): Outcome<B>
  {
    match outcome
    case Crashed(_) => outcome
    case Raised(response) =>
      if !renderErrors || renderer.None? then outcome else Rendered(renderer.value, responseType, response)
    case Returned(response) =>
      if renderer.None? then outcome else Rendered(renderer.value, responseType, response)
    case Value(body) =>
      if renderer.None? then outcome else Rendered(renderer.value, responseType, Response(200, "OK", body, None))
  }

  /** The whole view call: negotiate, dispatch on the parsed body unless negotiation raised, then render. */
  function Serve<P, B>(cfg: Config<P, B>, req: Request, dispatch: Option<P> -> Outcome<B>, emptyBody: B): Outcome<B>
    requires Readable(cfg, req)
  {
    Finish(Negotiate(cfg, req), cfg.renderErrors, dispatch, emptyBody)
  }

  /** What follows a finished negotiation `n`: dispatch on the parsed body unless it raised, then render. */
  function Finish<P, B>(n: Negotiation<P, B>, renderErrors: bool, dispatch: Option<P> -> Outcome<B>, emptyBody: B): Outcome<B> {
    var outcome := if n.error.Some? then Raised(ErrorResponse(n.error.value, emptyBody)) else dispatch(n.bodyParsed);
    AfterDispatch(n.renderer, n.responseContentType, renderErrors, outcome)
  }

  /** A response whose body and content type are reassigned in place. */
  class HttpResponse<B> {
    var status: nat
    var reason: string
    var body: B
    var contentType: Option<MediaType>

    /** `HTTPResponse()` with the status, body and headers of `r` applied. */
    constructor (r: Response<B>)
      ensures Snapshot() == r
    {
      status := r.status;
      reason := r.reason;
      body := r.body;
      contentType := r.contentType;
    }

    function Snapshot(): Response<B>
      reads this
    {
      Response(status, reason, body, contentType)
    }
  }

  /**
   * The tail of `ContentNegotiationViewMixin.__call__`: a response to render
   * is made (or the raised one copied), then its body and content type are
   * reassigned in place.
   */
  method Respond<B>(renderer: Option<Renderer<B>>, responseType: Option<MediaType>, renderErrors: bool, outcome: Outcome<B>)
    returns (result: Outcome<B>)
    ensures result == AfterDispatch(renderer, responseType, renderErrors, outcome)
  {
    var response: HttpResponse<B>;
    match outcome {
      case Crashed(_) =>
        return outcome;
      case Raised(raised) =>
        if !renderErrors || renderer.None? {
          return outcome;
        }
        response := new HttpResponse(raised);
      case Returned(returned) =>
        if renderer.None? {
          return outcome;
        }
        response := new HttpResponse(returned);
      case Value(value) =>
        if renderer.None? {
          return outcome;
        }
        response := new HttpResponse(Response(200, "OK", value, None));
    }

    var rendered := renderer.value.render(response.body);
    if rendered.Failure? {
      return Crashed(rendered.error);
    }
    response.body := rendered.value;
    response.contentType := responseType;
    result := Returned(response.Snapshot());
  }

  /**
   * `ContentNegotiationViewMixin.__call__`: runs `pre_dispatch` on a fresh
   * context, dispatches unless it raised, and renders; it ends as `Serve` says.
   */
  method Call<P, B>(cfg: Config<P, B>, req: Request, dispatch: Option<P> -> Outcome<B>, emptyBody: B)
    returns (result: Outcome<B>)
    requires Readable(cfg, req)
    ensures result == Serve(cfg, req, dispatch, emptyBody)
  {
    var cneg := new NegotiationContext<P, B>();
    var error := cneg.PreDispatch(cfg, req);
    var outcome := if error.Some? then Raised(ErrorResponse(error.value, emptyBody)) else dispatch(cneg.bodyParsed);
    result := Respond(cneg.renderer, cneg.responseContentType, cfg.renderErrors, outcome);
  }

  /** With a renderer, what the view returns is rendered and takes the negotiated type; the status is kept. */
  lemma RenderRule<B>(renderer: Renderer<B>, responseType: Option<MediaType>, renderErrors: bool, outcome: Outcome<B>)
    requires outcome.Value? || outcome.Returned? || (outcome.Raised? && renderErrors)
    ensures var original := if outcome.Value? then Response(200, "OK", outcome.value, None) else outcome.response;
      var r := AfterDispatch(Some(renderer), responseType, renderErrors, outcome);
      match renderer.render(original.body)
      case Failure(message) => r == Crashed(message)
      case Success(body) =>
        r.Returned? && r.response.status == original.status && r.response.reason == original.reason &&
        r.response.body == body && r.response.contentType == responseType
  {
  }

  /** A raised response escapes unchanged when errors are not rendered or no renderer was chosen. */
  lemma ReRaiseRule<B>(renderer: Option<Renderer<B>>, responseType: Option<MediaType>, renderErrors: bool, response: Response<B>)
    ensures AfterDispatch(renderer, responseType, renderErrors, Raised(response)).Raised? <==> !renderErrors || renderer.None?
    ensures AfterDispatch(renderer, responseType, renderErrors, Raised(response)).Raised? ==>
      AfterDispatch(renderer, responseType, renderErrors, Raised(response)) == Raised(response)
  {
  }

  /** The errors raised before a renderer is chosen leave none chosen. */
  lemma EarlyErrorsLeaveNoRenderer<P, B>(cfg: Config<P, B>, req: Request)
    requires Readable(cfg, req)
    ensures var n := Negotiate(cfg, req);
      n.error == Some(InvalidAccept) || n.error == Some(NotAcceptable) ==> n.renderer.None?
  {
  }

  /** So those errors always escape as raised, whatever `render_errors` says. */
  lemma EarlyErrorsEscape<P, B>(cfg: Config<P, B>, req: Request, dispatch: Option<P> -> Outcome<B>, emptyBody: B)
    requires Readable(cfg, req)
    requires Negotiate(cfg, req).error == Some(InvalidAccept) || Negotiate(cfg, req).error == Some(NotAcceptable)
    ensures Serve(cfg, req, dispatch, emptyBody) == Raised(ErrorResponse(Negotiate(cfg, req).error.value, emptyBody))
  {
    EarlyErrorsLeaveNoRenderer(cfg, req);
  }

  /** Later errors are rendered, with the negotiated type, when `render_errors` holds and a renderer was chosen. */
  lemma LaterErrorsRendered<P, B>(cfg: Config<P, B>, req: Request, dispatch: Option<P> -> Outcome<B>, emptyBody: B)
    requires Readable(cfg, req)
    requires Negotiate(cfg, req).error.Some? && cfg.renderErrors && Negotiate(cfg, req).renderer.Some?
    ensures var n := Negotiate(cfg, req);
      Serve(cfg, req, dispatch, emptyBody) == Rendered(n.renderer.value, n.responseContentType, ErrorResponse(n.error.value, emptyBody))
  {
    FinishRendersErrors(Negotiate(cfg, req), dispatch, emptyBody);
  }

  /** A negotiation that raised after choosing a renderer has its error response rendered. */
  lemma FinishRendersErrors<P, B>(n: Negotiation<P, B>, dispatch: Option<P> -> Outcome<B>, emptyBody: B)
    requires n.error.Some? && n.renderer.Some?
    ensures Finish(n, true, dispatch, emptyBody) == Rendered(n.renderer.value, n.responseContentType, ErrorResponse(n.error.value, emptyBody))
  {
  }
}
