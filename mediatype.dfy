/**
 * A single media type `type/subtype;key=value;...`: parsing, formatting,
 * the `+suffix` convention of RFC 3023, the quality weight of section 5.3.1
 * of RFC 7231, the precedence order of section 5.3.2 of RFC 7231, and the
 * compatibility test used when negotiating.
 */
module MediaTypes {
  import opened Wrappers
  import opened Text

  /** A parameter value: an integer when the text was all digits, the text otherwise. */
  datatype ParamValue = IntValue(n: nat) | StrValue(s: string)

  type Param = (string, ParamValue)

  /** A parsed media type; `params` is an ordered dictionary kept in insertion order. */
  datatype MediaType = MediaType(typ: string, subtype: string, params: seq<Param>)

  datatype ParseError = ParseError

  // ---------------------------------------------------------------------------
  // Parameters as an ordered dictionary
  // ---------------------------------------------------------------------------

  function Keys(d: seq<Param>): (r: seq<string>)
    ensures |r| == |d| && forall i :: 0 <= i < |d| ==> r[i] == d[i].0
  {
    if |d| == 0 then [] else [d[0].0] + Keys(d[1..])
  }

  predicate DistinctKeys(d: seq<Param>) {
    forall i, j :: 0 <= i < j < |d| ==> d[i].0 != d[j].0
  }

  /** `d.get(k)`: the value stored under `k`, if any. */
  function Lookup(d: seq<Param>, k: string): (r: Option<ParamValue>)
    ensures r.Some? <==> k in Keys(d)
    ensures r.Some? ==> (k, r.value) in d
  {
    if |d| == 0 then None
    else if d[0].0 == k then Some(d[0].1)
    else Lookup(d[1..], k)
  }

  /** In a dictionary with distinct keys, looking up the key at position `i` gives the value there. */
  lemma {:induction false} LookupAt(d: seq<Param>, i: nat)
    requires DistinctKeys(d) && i < |d|
    ensures Lookup(d, d[i].0) == Some(d[i].1)
  {
    if i > 0 {
      LookupAt(d[1..], i - 1);
    }
  }

  /**
   * `d[k] = v` on an ordered dictionary: an existing key keeps its position and
   * takes the new value, a new key is appended.
   */
  function DictSet(d: seq<Param>, k: string, v: ParamValue): (r: seq<Param>)
    ensures k !in Keys(d) ==> r == d + [(k, v)]
    ensures k in Keys(d) ==> Keys(r) == Keys(d)
    ensures forall p :: p in r ==> p in d || p == (k, v)
  {
    if |d| == 0 then [(k, v)]
    else if d[0].0 == k then [(k, v)] + d[1..]
    else [d[0]] + DictSet(d[1..], k, v)
  }

  /** After `d[k] = v`, `d.get(k)` is `v`. */
  lemma {:induction false} DictSetLookup(d: seq<Param>, k: string, v: ParamValue)
    ensures Lookup(DictSet(d, k, v), k) == Some(v)
  {
    if |d| > 0 && d[0].0 != k {
      DictSetLookup(d[1..], k, v);
    }
  }

  /** `d[k] = v` keeps the keys distinct: it either keeps the key sequence or appends a new key. */
  lemma DictSetKeepsDistinct(d: seq<Param>, k: string, v: ParamValue)
    requires DistinctKeys(d)
    ensures DistinctKeys(DictSet(d, k, v))
  {
    var r := DictSet(d, k, v);
    if k in Keys(d) {
      forall i, j | 0 <= i < j < |r| ensures r[i].0 != r[j].0 {
        assert r[i].0 == Keys(r)[i] == Keys(d)[i] == d[i].0;
        assert r[j].0 == Keys(r)[j] == Keys(d)[j] == d[j].0;
      }
    } else {
      forall i, j | 0 <= i < j < |r| ensures r[i].0 != r[j].0 {
        if j == |d| {
          assert r[i].0 == Keys(d)[i];
        } else {
          assert r[i] == d[i] && r[j] == d[j];
        }
      }
    }
  }

  /** `OrderedDict(pairs)`: the pairs inserted one after another. */
  function BuildDict(pairs: seq<Param>): (r: seq<Param>)
    ensures DistinctKeys(r)
    ensures forall p :: p in r ==> p in pairs
  {
    if |pairs| == 0 then []
    else
      var init := BuildDict(pairs[..|pairs| - 1]);
      var last := pairs[|pairs| - 1];
      DictSetKeepsDistinct(init, last.0, last.1);
      DictSet(init, last.0, last.1)
  }

  lemma BuildDictSnoc(pairs: seq<Param>, p: Param)
    ensures BuildDict(pairs + [p]) == DictSet(BuildDict(pairs), p.0, p.1)
  {
    assert (pairs + [p])[..|pairs|] == pairs;
  }

  /** Pairs whose keys are already distinct come out of the ordered dictionary unchanged. */
  lemma {:induction false} BuildDictDistinct(pairs: seq<Param>)
    requires DistinctKeys(pairs)
    ensures BuildDict(pairs) == pairs
  {
    if |pairs| > 0 {
      var init := pairs[..|pairs| - 1];
      var last := pairs[|pairs| - 1];
      assert init + [last] == pairs;
      assert DistinctKeys(init) by {
        forall i, j | 0 <= i < j < |init| ensures init[i].0 != init[j].0 {
          assert init[i] == pairs[i] && init[j] == pairs[j];
        }
      }
      BuildDictDistinct(init);
      assert last.0 !in Keys(init) by {
        forall i | 0 <= i < |init| ensures Keys(init)[i] != last.0 {
          assert init[i] == pairs[i];
        }
      }
      BuildDictSnoc(init, last);
    }
  }

  /** Inserting a key twice keeps its first position and its last value. */
  lemma DuplicateKeyKeepsFirstPositionLastValue(a: Param, b: Param, k: string, v1: ParamValue, v2: ParamValue)
    requires a.0 != k && b.0 != k && a.0 != b.0
    ensures BuildDict([(k, v1), a, (k, v2), b]) == [(k, v2), a, b]
  {
    var p1: seq<Param> := [(k, v1)];
    var p2 := p1 + [a];
    var p3 := p2 + [(k, v2)];
    var p4 := p3 + [b];
    assert [] + [(k, v1)] == p1;
    BuildDictSnoc([], (k, v1));
    assert BuildDict(p1) == p1;
    BuildDictSnoc(p1, a);
    assert a.0 !in Keys(p1);
    assert BuildDict(p2) == p2;
    BuildDictSnoc(p2, (k, v2));
    var d3: seq<Param> := [(k, v2), a];
    assert DictSet(p2, k, v2) == d3;
    assert BuildDict(p3) == d3;
    BuildDictSnoc(p3, b);
    assert b.0 !in Keys(d3);
    assert BuildDict(p4) == d3 + [b];
    assert p4 == [(k, v1), a, (k, v2), b];
  }

  // ---------------------------------------------------------------------------
  // Parsing
  // ---------------------------------------------------------------------------

  /** The stored form of a parameter value: `int(v)` when `v` is all digits. */
  function ToValue(v: string): ParamValue {
    if IsDigits(v) then IntValue(DigitsToNat(v)) else StrValue(v)
  }

  /** One `key=value` piece: split at the first `=`; the key and value must both be non-empty. */
  function ParseParam(piece: string): Result<Param, ParseError> {
    var (k, v) := PaddedSplit(piece, '=');
    if k == "" || v.None? || v.value == "" then Failure(ParseError)
    else Success((k, ToValue(v.value)))
  }

  /** Every piece parsed in order; any bad piece makes the whole list fail. */
  function ParseParams(pieces: seq<string>): (r: Result<seq<Param>, ParseError>)
    ensures r.Success? <==> forall i :: 0 <= i < |pieces| ==> ParseParam(pieces[i]).Success?
    ensures r.Success? ==> |r.value| == |pieces|
    ensures r.Success? ==> forall i :: 0 <= i < |pieces| ==> ParseParam(pieces[i]) == Success(r.value[i])
  {
    if |pieces| == 0 then Success([])
    else match ParseParam(pieces[0])
      case Failure(e) => Failure(e)
      case Success(p) =>
        match ParseParams(pieces[1..])
        case Failure(e) => Failure(e)
        case Success(rest) =>
          assert forall i :: 1 <= i < |pieces| ==> pieces[i] == pieces[1..][i - 1];
          Success([p] + rest)
  }

  /** A parameter as the parser can produce it. */
  predicate ValidParam(p: Param) {
    && p.0 != "" && '=' !in p.0 && ';' !in p.0
    && match p.1
       case IntValue(_) => true
       case StrValue(s) => s != "" && ';' !in s && !IsDigits(s)
  }

  predicate ValidParams(d: seq<Param>) {
    DistinctKeys(d) && forall p :: p in d ==> ValidParam(p)
  }

  lemma ParsedParamValid(piece: string)
    requires ';' !in piece && ParseParam(piece).Success?
    ensures ValidParam(ParseParam(piece).value)
  {
    var (k, v) := PaddedSplit(piece, '=');
    assert piece == k + ['='] + v.value;
  }

  /** The parameter tail after the first `;`: empty means no parameters, else `;`-separated pieces. */
  function ParseParamList(tail: string): (r: Result<seq<Param>, ParseError>)
    ensures r.Success? ==> ValidParams(r.value)
  {
    if tail == "" then Success([])
    else
      var pieces := Split(tail, ';');
      match ParseParams(pieces)
      case Failure(e) => Failure(e)
      case Success(pairs) =>
        assert forall p :: p in pairs ==> ValidParam(p) by {
          forall p | p in pairs ensures ValidParam(p) {
            var i :| 0 <= i < |pairs| && pairs[i] == p;
            ParsedParamValid(pieces[i]);
          }
        }
        Success(BuildDict(pairs))
  }

  /** The type part: a bare star reads as any/any, then split at the first `/`. */
  function ParseFullType(head: string): (r: Result<(string, string), ParseError>)
    requires ';' !in head
    ensures r.Success? ==> '/' !in r.value.0 && ';' !in r.value.0 && ';' !in r.value.1
    ensures r.Success? ==> (r.value.0 == "*" ==> r.value.1 == "*")
  {
    var fullType := if head == "*" then "*/*" else head;
    assert ';' !in fullType;
    var (t, st) := PaddedSplit(fullType, '/');
    if st.None? then Failure(ParseError)
    else if t == "*" && st.value != "*" then Failure(ParseError)
    else Success((t, st.value))
  }

  /** What every successfully parsed media type satisfies. */
  predicate WellFormed(m: MediaType) {
    && '/' !in m.typ && ';' !in m.typ && ';' !in m.subtype
    && (m.typ == "*" ==> m.subtype == "*")
    && ValidParams(m.params)
  }

  /**
   * `MediaType(value)`: strip, split off the parameters at the first `;`, read
   * the type part, and read the parameters as an ordered dictionary.
   */
  function Parse(value: string): (r: Result<MediaType, ParseError>)
    ensures r.Success? ==> WellFormed(r.value)
  {
    var (head, tail) := PaddedSplit(Strip(value), ';');
    var fullType := ParseFullType(head);
    var params := if tail.None? then Success([]) else ParseParamList(tail.value);
    if fullType.Failure? || params.Failure? then Failure(ParseError)
    else Success(MediaType(fullType.value.0, fullType.value.1, params.value))
  }

  /** A string without `/` in its type part is rejected, unless it is the bare star. */
  lemma MissingSlashRejected(s: string)
    requires Stripped(s) && ';' !in s && '/' !in s && s != "*"
    ensures Parse(s).Failure?
  {
  }

  /** A wildcard type needs a wildcard subtype. */
  lemma WildcardTypeNeedsWildcardSubtype(st: string)
    requires Stripped("*/" + st) && ';' !in st && st != "*"
    ensures Parse("*/" + st).Failure?
  {
    assert "*/" + st == "*" + ['/'] + st;
    PaddedSplitAt("*", '/', st);
    assert ';' !in "*/" + st;
  }

  lemma BadPieceRejected(full: string, x: string)
    requires ';' !in full && ';' !in x && x != "" && ParseParam(x).Failure?
    requires Stripped(full + ";" + x)
    ensures Parse(full + ";" + x).Failure?
  {
    var s := full + ";" + x;
    assert s == full + [';'] + x;
    assert Strip(s) == s;
    PaddedSplitAt(full, ';', x);
    assert Split(x, ';') == [x];
  }

  /** A parameter piece without `=` is rejected. */
  lemma MissingEqualsRejected(full: string, piece: string)
    requires ';' !in full && ';' !in piece && '=' !in piece && piece != ""
    requires Stripped(full + ";" + piece)
    ensures Parse(full + ";" + piece).Failure?
  {
    BadPieceRejected(full, piece);
  }

  /** A parameter piece with an empty key is rejected. */
  lemma EmptyKeyRejected(full: string, value: string)
    requires ';' !in full && ';' !in value
    requires Stripped(full + ";=" + value)
    ensures Parse(full + ";=" + value).Failure?
  {
    var x := "=" + value;
    assert full + ";=" + value == full + ";" + x;
    assert x == "" + ['='] + value;
    PaddedSplitAt("", '=', value);
    BadPieceRejected(full, x);
  }

  /** A parameter piece with an empty value is rejected. */
  lemma EmptyValueRejected(full: string, key: string)
    requires ';' !in full && ';' !in key && '=' !in key
    requires Stripped(full + ";" + key + "=")
    ensures Parse(full + ";" + key + "=").Failure?
  {
    var x := key + "=";
    assert full + ";" + key + "=" == full + ";" + x;
    assert x == key + ['='] + "";
    PaddedSplitAt(key, '=', "");
    BadPieceRejected(full, x);
  }

  /** `cast_media_type`: text is parsed, an already parsed value is kept. */
  datatype MediaTypeSource = FromText(s: string) | FromParsed(m: MediaType)

  function Cast(v: MediaTypeSource): (r: Result<MediaType, ParseError>)
    ensures v.FromParsed? ==> r == Success(v.m)
    ensures v.FromText? ==> r == Parse(v.s)
  {
    match v
    case FromText(s) => Parse(s)
    case FromParsed(m) => Success(m)
  }

  // ---------------------------------------------------------------------------
  // Formatting (`__str__`) and equality with strings
  // ---------------------------------------------------------------------------

  function ValueText(v: ParamValue): string {
    match v
    case IntValue(n) => NatToString(n)
    case StrValue(s) => s
  }

  function ParamText(p: Param): string {
    p.0 + "=" + ValueText(p.1)
  }

  function ParamTexts(d: seq<Param>): seq<string> {
    seq(|d|, i requires 0 <= i < |d| => ParamText(d[i]))
  }

  /** `str(m)`: `type/subtype`, then `;key=value` for each parameter in insertion order. */
  function ToString(m: MediaType): string {
    m.typ + "/" + m.subtype + (if |m.params| > 0 then ";" + Join(ParamTexts(m.params), ';') else "")
  }

  /** `m == s` for a string `s`: the formatted value equals `s`. */
  predicate EqualsString(m: MediaType, s: string) {
    ToString(m) == s
  }

  /** The parameter pieces of a string keep their digit values free of leading zeros and their keys distinct. */
  predicate CanonicalPieces(pieces: seq<string>) {
    && (forall i :: 0 <= i < |pieces| ==>
          var v := PaddedSplit(pieces[i], '=').1;
          v.Some? && IsDigits(v.value) ==> |v.value| == 1 || v.value[0] != '0')
    && (forall i, j :: 0 <= i < j < |pieces| ==> PaddedSplit(pieces[i], '=').0 != PaddedSplit(pieces[j], '=').0)
  }

  /**
   * A string the formatter reproduces: no surrounding whitespace, not the bare
   * star shorthand, no empty parameter tail, distinct keys, no leading zeros.
   */
  predicate Canonical(s: string) {
    var (head, tail) := PaddedSplit(s, ';');
    && Stripped(s) && head != "*"
    && (tail.Some? ==> tail.value != "" && CanonicalPieces(Split(tail.value, ';')))
  }

  lemma FullTypeThenFormat(head: string)
    requires ';' !in head && head != "*" && ParseFullType(head).Success?
    ensures ParseFullType(head).value.0 + "/" + ParseFullType(head).value.1 == head
  {
  }

  lemma PieceThenFormat(piece: string)
    requires ParseParam(piece).Success?
    requires var v := PaddedSplit(piece, '=').1;
      v.Some? && IsDigits(v.value) ==> |v.value| == 1 || v.value[0] != '0'
    ensures ParamText(ParseParam(piece).value) == piece
    ensures ParseParam(piece).value.0 == PaddedSplit(piece, '=').0
  {
    var (k, v) := PaddedSplit(piece, '=');
    if IsDigits(v.value) {
      DigitsRoundTrip(v.value);
    }
  }

  lemma ParamListThenFormat(tail: string)
    requires tail != "" && ParseParamList(tail).Success? && CanonicalPieces(Split(tail, ';'))
    ensures |ParseParamList(tail).value| > 0
    ensures Join(ParamTexts(ParseParamList(tail).value), ';') == tail
  {
    var pieces := Split(tail, ';');
    var pairs := ParseParams(pieces).value;
    PiecesThenFormat(pieces, pairs);
    BuildDictDistinct(pairs);
    assert ParseParamList(tail) == Success(BuildDict(pairs));
  }

  /** Canonical pieces, parsed one by one, print back as themselves and have distinct keys. */
  lemma PiecesThenFormat(pieces: seq<string>, pairs: seq<Param>)
    requires ParseParams(pieces) == Success(pairs) && CanonicalPieces(pieces)
    ensures ParamTexts(pairs) == pieces && DistinctKeys(pairs)
  {
    forall i | 0 <= i < |pairs|
      ensures ParamTexts(pairs)[i] == pieces[i]
      ensures pairs[i].0 == PaddedSplit(pieces[i], '=').0
    {
      assert ParseParam(pieces[i]) == Success(pairs[i]);
      PieceThenFormat(pieces[i]);
    }
  }

  /** Formatting a parsed canonical string reproduces it exactly, so the value also equals that string. */
  lemma ParseThenFormat(s: string)
    requires Parse(s).Success? && Canonical(s)
    ensures ToString(Parse(s).value) == s
    ensures EqualsString(Parse(s).value, s)
  {
    assert Strip(s) == s;
    var (head, tail) := PaddedSplit(s, ';');
    FullTypeThenFormat(head);
    if tail.Some? {
      ParamListThenFormat(tail.value);
    }
    FormatOfParts(Parse(s).value, head, tail);
  }

  /** The printed form is the full type, then `;` and the parameter text when there are parameters. */
  lemma FormatOfParts(m: MediaType, head: string, tail: Option<string>)
    requires m.typ + "/" + m.subtype == head
    requires tail.None? ==> m.params == []
    requires tail.Some? ==> |m.params| > 0 && Join(ParamTexts(m.params), ';') == tail.value
    ensures tail.None? ==> ToString(m) == head
    ensures tail.Some? ==> ToString(m) == head + [';'] + tail.value
  {
  }

  lemma FullTypeRoundTrip(t: string, st: string)
    requires '/' !in t && ';' !in t && ';' !in st && (t == "*" ==> st == "*")
    ensures ';' !in t + "/" + st
    ensures ParseFullType(t + "/" + st) == Success((t, st))
  {
    var full := t + "/" + st;
    assert full[|t|] == '/';
    PaddedSplitAt(t, '/', st);
  }

  lemma ParamListRoundTrip(d: seq<Param>)
    requires |d| > 0 && ValidParams(d)
    ensures ParseParamList(Join(ParamTexts(d), ';')) == Success(d)
  {
    var texts := ParamTexts(d);
    forall i | 0 <= i < |texts|
      ensures ';' !in texts[i]
      ensures ParseParam(texts[i]) == Success(d[i])
    {
      var p := d[i];
      assert p in d;
      var vt := ValueText(p.1);
      assert texts[i] == p.0 + ['='] + vt;
      PaddedSplitAt(p.0, '=', vt);
      match p.1
      case IntValue(n) =>
        assert forall c :: c in vt ==> IsDigit(c);
      case StrValue(_) =>
    }
    assert texts[0] != "";
    SplitJoin(texts, ';');
    assert ParseParams(texts).value == d;
    BuildDictDistinct(d);
  }

  /** Parsing the formatted text of a well-formed value gives the value back. */
  lemma FormatThenParse(m: MediaType)
    requires WellFormed(m) && Stripped(ToString(m))
    ensures Parse(ToString(m)) == Success(m)
  {
    var s := ToString(m);
    assert Strip(s) == s;
    FullTypeRoundTrip(m.typ, m.subtype);
    var full := m.typ + "/" + m.subtype;
    if |m.params| == 0 {
      assert s == full;
    } else {
      var joined := Join(ParamTexts(m.params), ';');
      ParamListRoundTrip(m.params);
      assert s == full + [';'] + joined;
      PaddedSplitAt(full, ';', joined);
    }
  }

  // ---------------------------------------------------------------------------
  // Suffix and format
  // ---------------------------------------------------------------------------

  /** The structured-syntax suffix of RFC 3023: the subtype text after its first `+`, if any. */
  function Suffix(m: MediaType): (r: Option<string>)
    ensures r.None? <==> '+' !in m.subtype
    ensures r.Some? ==> exists base :: '+' !in base && m.subtype == base + "+" + r.value
  {
    var (base, suffix) := PaddedSplit(m.subtype, '+');
    suffix
  }

  /** The common handler name for a media type: json, xml, html or plain. */
  function Format(m: MediaType): (r: Option<string>)
  {
    var full := m.typ + "/" + m.subtype;
    if full == "application/json" || Suffix(m) == Some("json") then Some("json")
    else if full == "application/xml" || Suffix(m) == Some("xml") then Some("xml")
    else if full == "text/html" then Some("html")
    else if full == "text/plain" then Some("plain")
    else None
  }

  /** The format names exactly the four handlers, by full type or by suffix. */
  lemma FormatCases(m: MediaType)
    requires '/' !in m.typ
    ensures Format(m).Some? ==> Format(m).value in {"json", "xml", "html", "plain"}
    ensures Format(m) == Some("json") <==> m.typ + "/" + m.subtype == "application/json" || Suffix(m) == Some("json")
    ensures Format(m) == Some("xml") <==>
      Format(m) != Some("json") && (m.typ + "/" + m.subtype == "application/xml" || Suffix(m) == Some("xml"))
    ensures Format(m) == Some("html") <==> m.typ == "text" && m.subtype == "html"
    ensures Format(m) == Some("plain") <==> m.typ == "text" && m.subtype == "plain"
    ensures Format(m) == Format(m.(params := []))
  {
    FormatByName(m);
    FormatOfHtml(m);
    FormatOfPlain(m);
  }

  lemma FormatByName(m: MediaType)
    ensures Format(m).Some? ==> Format(m).value in {"json", "xml", "html", "plain"}
    ensures Format(m) == Some("json") <==> m.typ + "/" + m.subtype == "application/json" || Suffix(m) == Some("json")
    ensures Format(m) == Some("xml") <==>
      Format(m) != Some("json") && (m.typ + "/" + m.subtype == "application/xml" || Suffix(m) == Some("xml"))
    ensures Format(m) == Format(m.(params := []))
  {
  }

  lemma FormatOfHtml(m: MediaType)
    requires '/' !in m.typ
    ensures Format(m) == Some("html") <==> m.typ == "text" && m.subtype == "html"
  {
    if m.typ == "text" && m.subtype == "html" {
      assert Suffix(m) == None by { assert '+' !in m.subtype; }
    }
    FullNameSplits(m.typ, m.subtype, "text", "html");
  }

  lemma FormatOfPlain(m: MediaType)
    requires '/' !in m.typ
    ensures Format(m) == Some("plain") <==> m.typ == "text" && m.subtype == "plain"
  {
    if m.typ == "text" && m.subtype == "plain" {
      assert Suffix(m) == None by { assert '+' !in m.subtype; }
      assert m.typ + "/" + m.subtype == "text/plain";
    }
    FullNameSplits(m.typ, m.subtype, "text", "plain");
  }

  /** A full name `type/subtype` with a `/`-free type determines both halves. */
  lemma FullNameSplits(t: string, st: string, t2: string, st2: string)
    requires '/' !in t && '/' !in t2
    ensures t + "/" + st == t2 + "/" + st2 ==> t == t2 && st == st2
  {
    if t + "/" + st == t2 + "/" + st2 {
      assert t + "/" + st == t + ['/'] + st;
      assert t2 + "/" + st2 == t2 + ['/'] + st2;
      PaddedSplitAt(t, '/', st);
      PaddedSplitAt(t2, '/', st2);
    }
  }

  // ---------------------------------------------------------------------------
  // Quality
  // ---------------------------------------------------------------------------

  /** `Decimal(s)` for unsigned plain decimals: digits with an optional fraction, at least one digit. */
  function ParseUnsignedDecimal(s: string): Option<real> {
    var (whole, frac) := PaddedSplit(s, '.');
    var f := if frac.Some? then frac.value else "";
    if |whole| + |f| == 0 || !AllDigits(whole) || !AllDigits(f) then None
    else Some(DigitsToNat(whole) as real + Shifted(DigitsToNat(f), |f|))
  }

  /** `n` moved `k` places right of the decimal point, that is `n / 10^k`, one place at a time. */
  function Shifted(n: nat, k: nat): real {
    if k == 0 then n as real else Shifted(n, k - 1) / 10.0
  }

  /** A number below `bound * 10^k` moved `k` places lies in [0, bound). */
  lemma {:induction false} ShiftedBelow(n: nat, k: nat, bound: nat)
    requires n < bound * Pow10(k)
    ensures 0.0 <= Shifted(n, k) < bound as real
  {
    if k > 0 {
      assert bound * Pow10(k) == (10 * bound) * Pow10(k - 1);
      ShiftedBelow(n, k - 1, 10 * bound);
    }
  }

  /** A plain decimal with an optional sign, after whitespace and underscores are gone. */
  function ParseSignedDecimal(s: string): Option<real> {
    if |s| > 0 && (s[0] == '+' || s[0] == '-') then
      match ParseUnsignedDecimal(s[1..])
      case None => None
      case Some(x) => Some(if s[0] == '-' then -x else x)
    else ParseUnsignedDecimal(s)
  }

  /**
   * `Decimal(s)` for plain decimals: the constructor strips surrounding whitespace
   * and drops every underscore before it reads the number.
   */
  function ParseDecimal(s: string): Option<real> {
    ParseSignedDecimal(Remove(Strip(s), '_'))
  }

  /** Digits, a point and a sign are read as they stand: there is nothing to strip or drop. */
  lemma PlainDecimalAsIs(s: string)
    requires Stripped(s) && '_' !in s
    ensures ParseDecimal(s) == ParseSignedDecimal(s)
  {
  }

  /** A string of digits reads as the same number whether stored as text or as an integer. */
  lemma DecimalOfDigits(d: string)
    requires IsDigits(d)
    ensures ParseDecimal(d) == Some(DigitsToNat(d) as real)
  {
    assert '.' !in d && '_' !in d by { assert forall i :: 0 <= i < |d| ==> d[i] != '.' && d[i] != '_'; }
    PlainDecimalAsIs(d);
  }

  /** Whitespace around a number does not change what it reads as. */
  lemma SpacesAroundIgnored(pre: string, s: string, post: string)
    requires forall i :: 0 <= i < |pre| ==> IsSpace(pre[i])
    requires forall i :: 0 <= i < |post| ==> IsSpace(post[i])
    requires |s| > 0 && !IsSpace(s[0]) && !IsSpace(s[|s| - 1])
    ensures ParseDecimal(pre + s + post) == ParseDecimal(s)
  {
    StripSurrounded(pre, s, post);
    assert Strip(s) == s;
  }

  /** An underscore inside a number, between two non-blank ends, is dropped. */
  lemma UnderscoreIgnored(a: string, b: string)
    requires |a| > 0 && |b| > 0 && !IsSpace(a[0]) && !IsSpace(b[|b| - 1])
    ensures ParseDecimal(a + "_" + b) == ParseDecimal(a + b)
  {
    var s := a + "_" + b;
    assert Strip(s) == s by { assert s[0] == a[0] && s[|s| - 1] == b[|b| - 1]; }
    assert Strip(a + b) == a + b by { assert (a + b)[0] == a[0] && (a + b)[|a + b| - 1] == b[|b| - 1]; }
    RemoveBetween(a, b, '_');
  }

  lemma {:induction false} DigitsBelowPower(d: string)
    requires AllDigits(d)
    ensures DigitsToNat(d) < Pow10(|d|)
  {
    if |d| > 0 {
      DigitsBelowPower(d[..|d| - 1]);
    }
  }

  /** A weight written `0.` followed by digits lies in [0, 1). */
  lemma FractionBelowOne(d: string)
    requires AllDigits(d)
    ensures ParseDecimal("0." + d).Some?
    ensures 0.0 <= ParseDecimal("0." + d).value < 1.0
  {
    ZeroPointPlain(d);
    PlainDecimalAsIs("0." + d);
    SignedPointFraction(d);
  }

  lemma SignedPointFraction(d: string)
    requires AllDigits(d)
    ensures ParseSignedDecimal("0." + d).Some?
    ensures 0.0 <= ParseSignedDecimal("0." + d).value < 1.0
  {
    var s := "0." + d;
    assert s[0] == '0';
    ZeroPointSplit(d);
    assert AllDigits("0") && DigitsToNat("0") == 0;
    DigitsBelowPower(d);
    ShiftedBelow(DigitsToNat(d), |d|, 1);
  }

  lemma ZeroPointPlain(d: string)
    requires AllDigits(d)
    ensures Stripped("0." + d) && '_' !in "0." + d
  {
    var s := "0." + d;
    DigitsOnly(d, '_');
    if |d| > 0 {
      assert s[|s| - 1] == d[|d| - 1];
    }
  }

  lemma ZeroPointSplit(d: string)
    ensures PaddedSplit("0." + d, '.') == ("0", Some(d))
  {
    assert "0." + d == "0" + ['.'] + d;
    PaddedSplitAt("0", '.', d);
  }

  /** `Decimal(parameters.get('q', 1))`, when the stored text is a plain decimal. */
  function QualityOf(m: MediaType): Option<real> {
    match Lookup(m.params, "q")
    case None => Some(1.0)
    case Some(IntValue(n)) => Some(n as real)
    case Some(StrValue(s)) => ParseDecimal(s)
  }

  /** The quality can be read. */
  predicate Weighable(m: MediaType) {
    QualityOf(m).Some?
  }

  function Quality(m: MediaType): real
    requires Weighable(m)
  {
    QualityOf(m).value
  }

  /** The quality is the `q` parameter read as an exact decimal, and 1 without one. */
  lemma QualityReadsQ(m: MediaType)
    ensures "q" !in Keys(m.params) ==> Weighable(m) && Quality(m) == 1.0
    ensures forall n: nat :: ("q", IntValue(n)) in m.params && DistinctKeys(m.params) ==> Weighable(m) && Quality(m) == n as real
  {
    forall n: nat | ("q", IntValue(n)) in m.params && DistinctKeys(m.params)
      ensures Weighable(m) && Quality(m) == n as real
    {
      var v := Lookup(m.params, "q").value;
      var i :| 0 <= i < |m.params| && m.params[i] == ("q", IntValue(n));
      var j :| 0 <= j < |m.params| && m.params[j] == ("q", v);
      assert i == j;
    }
  }

  // ---------------------------------------------------------------------------
  // Precedence
  // ---------------------------------------------------------------------------

  /** Number of parameters other than `q`. */
  function Specificity(d: seq<Param>): nat {
    if |d| == 0 then 0 else (if d[0].0 == "q" then 0 else 1) + Specificity(d[1..])
  }

  /**
   * `a.compare(b)`: -1, 0 or 1 as `a` is less specific than, as specific as, or
   * more specific than `b`: concrete type first, then concrete subtype, then
   * the number of non-`q` parameters, then quality.
   */
  /** `compare` reaches its quality step: type, subtype and (unless ignored) parameter count all tie. */
  predicate TiedBeforeQuality(a: MediaType, b: MediaType, ignoreParameters: bool) {
    && (a.typ == "*") == (b.typ == "*")
    && (a.subtype == "*") == (b.subtype == "*")
    && (ignoreParameters || Specificity(a.params) == Specificity(b.params))
  }

  function Compare(a: MediaType, b: MediaType, ignoreQuality: bool, ignoreParameters: bool): (r: int)
    requires ignoreQuality || !TiedBeforeQuality(a, b, ignoreParameters) || (Weighable(a) && Weighable(b))
    ensures -1 <= r <= 1
  {
    if a.typ == "*" && b.typ != "*" then -1
    else if a.typ != "*" && b.typ == "*" then 1
    else if a.subtype == "*" && b.subtype != "*" then -1
    else if a.subtype != "*" && b.subtype == "*" then 1
    else if !ignoreParameters && Specificity(a.params) < Specificity(b.params) then -1
    else if !ignoreParameters && Specificity(a.params) > Specificity(b.params) then 1
    else if !ignoreQuality && Quality(a) < Quality(b) then -1
    else if !ignoreQuality && Quality(a) > Quality(b) then 1
    else 0
  }

  /** The precedence key: concrete type, concrete subtype, parameter count and quality (the last two 0 when ignored). */
  datatype Rank = Rank(concreteType: bool, concreteSubtype: bool, specificity: nat, weight: real)

  function RankOf(m: MediaType, ignoreQuality: bool, ignoreParameters: bool): Rank
    requires ignoreQuality || Weighable(m)
  {
    Rank(m.typ != "*", m.subtype != "*",
         if ignoreParameters then 0 else Specificity(m.params),
         if ignoreQuality then 0.0 else Quality(m))
  }

  /** Strict lexicographic order on keys, with false below true. */
  predicate RankBelow(x: Rank, y: Rank) {
    || (!x.concreteType && y.concreteType)
    || (x.concreteType == y.concreteType && !x.concreteSubtype && y.concreteSubtype)
    || (x.concreteType == y.concreteType && x.concreteSubtype == y.concreteSubtype && x.specificity < y.specificity)
    || (x.concreteType == y.concreteType && x.concreteSubtype == y.concreteSubtype && x.specificity == y.specificity
        && x.weight < y.weight)
  }

  /** `compare` is exactly the lexicographic comparison of the precedence keys. */
  lemma CompareIsLexicographic(a: MediaType, b: MediaType, iq: bool, ip: bool)
    requires iq || (Weighable(a) && Weighable(b))
    ensures Compare(a, b, iq, ip) == -1 <==> RankBelow(RankOf(a, iq, ip), RankOf(b, iq, ip))
    ensures Compare(a, b, iq, ip) == 1 <==> RankBelow(RankOf(b, iq, ip), RankOf(a, iq, ip))
    ensures Compare(a, b, iq, ip) == 0 <==> RankOf(a, iq, ip) == RankOf(b, iq, ip)
  {
  }

  /** `compare` is a total preorder: reflexive, antisymmetric in sign, and transitive. */
  lemma CompareIsPreorder(a: MediaType, b: MediaType, c: MediaType, iq: bool, ip: bool)
    requires iq || (Weighable(a) && Weighable(b) && Weighable(c))
    ensures Compare(a, a, iq, ip) == 0
    ensures Compare(a, b, iq, ip) == -Compare(b, a, iq, ip)
    ensures Compare(a, b, iq, ip) >= 0 && Compare(b, c, iq, ip) >= 0 ==> Compare(a, c, iq, ip) >= 0
    ensures Compare(a, b, iq, ip) > 0 && Compare(b, c, iq, ip) >= 0 ==> Compare(a, c, iq, ip) > 0
    ensures Compare(a, b, iq, ip) == 0 && Compare(b, c, iq, ip) == 0 ==> Compare(a, c, iq, ip) == 0
  {
    CompareIsLexicographic(a, b, iq, ip);
    CompareIsLexicographic(b, a, iq, ip);
    CompareIsLexicographic(b, c, iq, ip);
    CompareIsLexicographic(a, c, iq, ip);
  }

  /** `a < b`. */
  predicate Less(a: MediaType, b: MediaType)
    requires Weighable(a) && Weighable(b)
  {
    Compare(a, b, false, false) == -1
  }

  /** `a > b`. */
  predicate Greater(a: MediaType, b: MediaType)
    requires Weighable(a) && Weighable(b)
  {
    Compare(a, b, false, false) == 1
  }

  /** `a >= b`. */
  predicate AtLeast(a: MediaType, b: MediaType)
    requires Weighable(a) && Weighable(b)
  {
    Compare(a, b, false, false) in {0, 1}
  }

  /** `a <= b`. */
  predicate AtMost(a: MediaType, b: MediaType)
    requires Weighable(a) && Weighable(b)
  {
    Compare(a, b, false, false) in {-1, 0}
  }

  /** The four operators agree with each other as a total preorder's operators do. */
  lemma OrderingOperators(a: MediaType, b: MediaType)
    requires Weighable(a) && Weighable(b)
    ensures Less(a, b) <==> Greater(b, a)
    ensures AtMost(a, b) <==> !Greater(a, b)
    ensures AtLeast(a, b) <==> !Less(a, b)
    ensures AtMost(a, b) || AtLeast(a, b)
    ensures AtMost(a, b) && AtLeast(a, b) <==> RankOf(a, false, false) == RankOf(b, false, false)
  {
    CompareIsPreorder(a, b, b, false, false);
    CompareIsLexicographic(a, b, false, false);
  }

  // ---------------------------------------------------------------------------
  // Matching
  // ---------------------------------------------------------------------------

  /** The parameters other than `q`, in order. */
  function WithoutQ(d: seq<Param>): (r: seq<Param>)
    ensures |r| == Specificity(d)
  {
    if |d| == 0 then []
    else if d[0].0 == "q" then WithoutQ(d[1..])
    else [d[0]] + WithoutQ(d[1..])
  }

  /** Types agree or one side is `*`, and likewise for subtypes. */
  predicate TypesCompatible(a: MediaType, b: MediaType) {
    && (a.typ == "*" || b.typ == "*" || a.typ == b.typ)
    && (a.subtype == "*" || b.subtype == "*" || a.subtype == b.subtype)
  }

  /**
   * The qualities `is_match` reads can be read: none until the types are
   * compatible, then the receiver's, and the argument's only when the
   * receiver's is not 0.
   */
  predicate MatchReadable(a: MediaType, b: MediaType, ignoreQuality: bool) {
    ignoreQuality || !TypesCompatible(a, b) || (Weighable(a) && (Quality(a) == 0.0 || Weighable(b)))
  }

  /**
   * `a.is_match(b)`: types and subtypes compatible; unless quality is ignored,
   * neither weight is 0 and `a`'s weight does not exceed `b`'s; unless
   * parameters are ignored, the non-`q` parameters agree (in order, as the
   * ordered dictionaries compare).
   */
  function IsMatch(a: MediaType, b: MediaType, ignoreQuality: bool, ignoreParameters: bool): bool
    requires MatchReadable(a, b, ignoreQuality)
  {
    if a.typ != "*" && b.typ != "*" && a.typ != b.typ then false
    else if a.subtype != "*" && b.subtype != "*" && a.subtype != b.subtype then false
    else if !ignoreQuality && (Quality(a) == 0.0 || Quality(b) == 0.0 || Quality(a) > Quality(b)) then false
    else if !ignoreParameters && WithoutQ(a.params) != WithoutQ(b.params) then false
    else true
  }

  /** What a match guarantees: compatible types, the weight condition and the parameter condition. */
  lemma MatchMeans(a: MediaType, b: MediaType, iq: bool, ip: bool)
    requires MatchReadable(a, b, iq)
    ensures IsMatch(a, b, iq, ip) <==>
      && TypesCompatible(a, b)
      && (iq || (Quality(a) != 0.0 && Quality(b) != 0.0 && Quality(a) <= Quality(b)))
      && (ip || WithoutQ(a.params) == WithoutQ(b.params))
  {
  }

  /** Incompatible types never match, whatever their parameters, so no quality is read. */
  lemma IncompatibleNeverMatches(a: MediaType, b: MediaType, iq: bool, ip: bool)
    requires !TypesCompatible(a, b)
    ensures MatchReadable(a, b, iq) && !IsMatch(a, b, iq, ip)
  {
  }

  /** A receiver weighted 0 matches nothing with quality considered, whatever the argument's `q`. */
  lemma ZeroWeightMatchesNothing(a: MediaType, b: MediaType, ip: bool)
    requires Weighable(a) && Quality(a) == 0.0
    ensures MatchReadable(a, b, false) && !IsMatch(a, b, false, ip)
  {
  }

  /** Weight is directional: a match with quality considered never has the receiver heavier than the argument. */
  lemma MatchWeightDirection(a: MediaType, b: MediaType, ip: bool)
    requires Weighable(a) && Weighable(b)
    requires IsMatch(a, b, false, ip)
    ensures Quality(a) != 0.0 && Quality(b) != 0.0 && Quality(a) <= Quality(b)
    ensures Quality(a) < Quality(b) ==> !IsMatch(b, a, false, ip)
  {
  }

  /** A receiver declared without `q` (weight 1) never matches an argument weighted below 1. */
  lemma UnweightedNeverMatchesDiscounted(a: MediaType, b: MediaType, ip: bool)
    requires "q" !in Keys(a.params) && Weighable(b) && Quality(b) < 1.0
    ensures Weighable(a) && !IsMatch(a, b, false, ip)
  {
    QualityReadsQ(a);
  }

  /** With quality ignored, matching is symmetric. */
  lemma MatchSymmetricWithoutQuality(a: MediaType, b: MediaType, ip: bool)
    ensures IsMatch(a, b, true, ip) == IsMatch(b, a, true, ip)
  {
  }

  /** Ignoring quality or parameters only ever turns a non-match into a match. */
  lemma IgnoringWidensMatch(a: MediaType, b: MediaType, iq: bool, ip: bool)
    requires Weighable(a) && Weighable(b)
    requires IsMatch(a, b, false, false)
    ensures IsMatch(a, b, iq, ip)
  {
  }

  /** Every media type with a non-zero weight matches itself; one weighted 0 matches nothing. */
  lemma MatchReflexive(a: MediaType, b: MediaType, ip: bool)
    requires Weighable(a) && Weighable(b)
    ensures Quality(a) != 0.0 ==> IsMatch(a, a, false, ip)
    ensures Quality(a) == 0.0 ==> !IsMatch(a, b, false, ip) && !IsMatch(b, a, false, ip)
  {
  }

  // ---------------------------------------------------------------------------
  // Examples
  // ---------------------------------------------------------------------------

  /** The format of the media types written `application/xml`, `application/json`, `vnd/special+json`, `text/html`, `text/plain` and `wtf/world`. */
  lemma FormatExamples()
    ensures Format(MediaType("application", "xml", [])) == Some("xml")
    ensures Format(MediaType("application", "json", [])) == Some("json")
    ensures Format(MediaType("vnd", "special+json", [])) == Some("json")
    ensures Format(MediaType("text", "html", [])) == Some("html")
    ensures Format(MediaType("text", "plain", [])) == Some("plain")
    ensures Format(MediaType("wtf", "world", [])) == None
  {
    ApplicationFormats();
    SuffixFormat();
    TextFormats();
    UnknownFormat();
  }

  lemma ApplicationFormats()
    ensures Format(MediaType("application", "xml", [])) == Some("xml")
    ensures Format(MediaType("application", "json", [])) == Some("json")
  {
    assert "application" + "/" + "xml" == "application/xml";
    assert "application" + "/" + "json" == "application/json";
    assert Suffix(MediaType("application", "xml", [])) == None by { assert '+' !in "xml"; }
  }

  lemma SuffixFormat()
    ensures Format(MediaType("vnd", "special+json", [])) == Some("json")
  {
    assert "special+json" == "special" + ['+'] + "json";
    PaddedSplitAt("special", '+', "json");
  }

  lemma TextFormats()
    ensures Format(MediaType("text", "html", [])) == Some("html")
    ensures Format(MediaType("text", "plain", [])) == Some("plain")
  {
    FormatCases(MediaType("text", "html", []));
    FormatCases(MediaType("text", "plain", []));
  }

  lemma UnknownFormat()
    ensures Format(MediaType("wtf", "world", [])) == None
  {
    var w := MediaType("wtf", "world", []);
    FormatCases(w);
    assert Suffix(w) == None by { assert '+' !in "world"; }
    assert Format(w) != Some("json") && Format(w) != Some("xml");
    assert Format(w) != Some("html") && Format(w) != Some("plain");
  }
}
