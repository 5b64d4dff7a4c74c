/**
 * Lists of media types, as read from an `Accept` header or declared by a
 * parser or renderer: building them, sorting them by precedence, and the
 * greedy pairing of one list against another that content negotiation uses.
 */
module MediaTypeLists {
  import opened Wrappers
  import opened Text
  import opened MediaTypes

  /** Every element has a readable quality, so the elements can be ordered. */
  predicate AllWeighable(l: seq<MediaType>) {
    forall m :: m in l ==> Weighable(m)
  }

  // ---------------------------------------------------------------------------
  // Building lists
  // ---------------------------------------------------------------------------

  /** Each item cast to a media type in order; the first item that fails to parse fails the list. */
  function CastAll(items: seq<MediaTypeSource>): (r: Result<seq<MediaType>, ParseError>)
    ensures r.Success? <==> forall i :: 0 <= i < |items| ==> Cast(items[i]).Success?
    ensures r.Success? ==> |r.value| == |items|
    ensures r.Success? ==> forall i :: 0 <= i < |items| ==> Cast(items[i]) == Success(r.value[i])
  {
    if |items| == 0 then Success([])
    else match Cast(items[0])
      case Failure(e) => Failure(e)
      case Success(m) =>
        match CastAll(items[1..])
        case Failure(e) => Failure(e)
        case Success(rest) =>
          assert forall i :: 1 <= i < |items| ==> items[i] == items[1..][i - 1];
          Success([m] + rest)
  }

  /** The comma-separated pieces of a header, each still to be parsed. */
  function HeaderItems(s: string): seq<MediaTypeSource> {
    var pieces := Split(s, ',');
    seq(|pieces|, i requires 0 <= i < |pieces| => FromText(pieces[i]))
  }

  /** What `MediaTypeList(items)` is given: a header string, a list of items, or nothing. */
  datatype ListSource = Header(s: string) | Items(items: seq<MediaTypeSource>) | NoItems

  /** `MediaTypeList(items)`: a string is split at every comma, then every item is cast. */
  function MakeList(src: ListSource): Result<seq<MediaType>, ParseError> {
    match src
    case Header(s) => CastAll(HeaderItems(s))
    case Items(items) => CastAll(items)
    case NoItems => Success([])
  }

  /** Casting the i-th item of a header parses its i-th piece. */
  lemma HeaderItemsParse(s: string)
    ensures MakeList(Header(s)) == CastAll(HeaderItems(s))
    ensures |HeaderItems(s)| == |Split(s, ',')|
    ensures forall i :: 0 <= i < |HeaderItems(s)| ==> Cast(HeaderItems(s)[i]) == Parse(Split(s, ',')[i])
  {
  }

  /** Items that cast as their pieces parse build a list exactly when every piece parses. */
  lemma CastTexts(pieces: seq<string>, items: seq<MediaTypeSource>)
    requires |items| == |pieces|
    requires forall i :: 0 <= i < |items| ==> Cast(items[i]) == Parse(pieces[i])
    ensures CastAll(items).Success? <==> forall piece :: piece in pieces ==> Parse(piece).Success?
    ensures CastAll(items).Success? ==>
      forall i :: 0 <= i < |pieces| ==> Parse(pieces[i]) == Success(CastAll(items).value[i])
  {
    if forall piece :: piece in pieces ==> Parse(piece).Success? {
      forall i | 0 <= i < |items| ensures Cast(items[i]).Success? {
        assert pieces[i] in pieces;
      }
    }
  }

  /** A header reads as one media type per comma-separated piece, each parsed on its own; it is never empty. */
  lemma HeaderList(s: string)
    ensures MakeList(Header(s)).Success? <==> forall piece :: piece in Split(s, ',') ==> Parse(piece).Success?
    ensures MakeList(Header(s)).Success? ==>
      var l := MakeList(Header(s)).value;
      |l| == |Split(s, ',')| >= 1 && forall i :: 0 <= i < |l| ==> Parse(Split(s, ',')[i]) == Success(l[i])
  {
    HeaderItemsParse(s);
    CastTexts(Split(s, ','), HeaderItems(s));
  }

  /** The media types written out and joined with commas. */
  function JoinTypes(l: seq<MediaType>): string {
    Join(seq(|l|, i requires 0 <= i < |l| => ToString(l[i])), ',')
  }

  /** A non-empty list of well-formed media types survives being written as a header and read back. */
  lemma HeaderRoundTrip(l: seq<MediaType>)
    requires |l| > 0
    requires forall m :: m in l ==> WellFormed(m) && Stripped(ToString(m)) && ',' !in ToString(m)
    ensures MakeList(Header(JoinTypes(l))) == Success(l)
  {
    var texts := seq(|l|, i requires 0 <= i < |l| => ToString(l[i]));
    forall i | 0 <= i < |texts| ensures ',' !in texts[i] {
      assert l[i] in l;
    }
    SplitJoin(texts, ',');
    var items := HeaderItems(JoinTypes(l));
    forall i | 0 <= i < |items| ensures Cast(items[i]) == Success(l[i]) {
      assert l[i] in l;
      FormatThenParse(l[i]);
    }
    assert MakeList(Header(JoinTypes(l))).value == l;
  }

  /** What `cast_media_type_list` is given: a list already built, or anything else. */
  datatype ListValue = AlreadyList(list: seq<MediaType>) | Raw(src: ListSource)

  /** Python truthiness of the raw value. */
  predicate Truthy(src: ListSource) {
    match src
    case Header(s) => s != ""
    case Items(items) => |items| > 0
    case NoItems => false
  }

  /** `cast_media_type_list`: a built list is returned as is, a truthy value is built, anything else is empty. */
  function CastList(v: ListValue): Result<seq<MediaType>, ParseError> {
    match v
    case AlreadyList(l) => Success(l)
    case Raw(src) => if Truthy(src) then MakeList(src) else Success([])
  }

  /** Casting never fails on an empty value, though building a list from the empty header does. */
  lemma CastListOfEmpty(src: ListSource)
    requires !Truthy(src)
    ensures CastList(Raw(src)) == Success([])
    ensures src.Header? ==> MakeList(src).Failure?
  {
    if src.Header? {
      EmptyHeaderRejected(src.s);
    }
  }

  lemma EmptyHeaderRejected(h: string)
    requires |h| == 0
    ensures MakeList(Header(h)).Failure?
  {
    MissingSlashRejected(h);
    assert PaddedSplit(h, ',') == (h, None);
    assert HeaderItems(h) == [FromText(h)];
  }

  /** Casting a truthy value agrees with building a list from it, and a built list is kept. */
  lemma CastListAgrees(v: ListValue)
    ensures v.AlreadyList? ==> CastList(v) == Success(v.list)
    ensures v.Raw? && Truthy(v.src) ==> CastList(v) == MakeList(v.src)
    ensures CastList(v).Success? && v.Raw? && v.src.Header? && Truthy(v.src) ==> |CastList(v).value| >= 1
  {
    if v.Raw? && v.src.Header? && Truthy(v.src) {
      HeaderList(v.src.s);
    }
  }

  // ---------------------------------------------------------------------------
  // Precedence order
  // ---------------------------------------------------------------------------

  /** `a >= b` in precedence. */
  predicate Precedes(a: MediaType, b: MediaType)
    requires Weighable(a) && Weighable(b)
  {
    Compare(a, b, false, false) >= 0
  }

  /** Highest precedence first: no element is outranked by a later one. */
  predicate NonIncreasing(l: seq<MediaType>)
    requires AllWeighable(l)
  {
    forall i, j :: 0 <= i < j < |l| ==> Precedes(l[i], l[j])
  }

  /** Stable insertion: `e` goes in front of the first element it is not outranked by. */
  function Insert(e: MediaType, l: seq<MediaType>): (r: seq<MediaType>)
    requires Weighable(e) && AllWeighable(l)
    ensures multiset(r) == multiset(l) + multiset{e}
    ensures AllWeighable(r)
  {
    if |l| == 0 then [e]
    else if Precedes(e, l[0]) then [e] + l
    else
      assert l == [l[0]] + l[1..];
      [l[0]] + Insert(e, l[1..])
  }

  lemma PrecedesTransitive(a: MediaType, b: MediaType, c: MediaType)
    requires Weighable(a) && Weighable(b) && Weighable(c)
    requires Precedes(a, b) && Precedes(b, c)
    ensures Precedes(a, c)
  {
    CompareIsPreorder(a, b, c, false, false);
  }

  lemma PrecedesTotal(a: MediaType, b: MediaType)
    requires Weighable(a) && Weighable(b)
    ensures Precedes(a, a)
    ensures !Precedes(a, b) ==> Precedes(b, a)
  {
    CompareIsPreorder(a, b, b, false, false);
  }

  lemma ConsNonIncreasing(x: MediaType, l: seq<MediaType>)
    requires Weighable(x) && AllWeighable(l) && NonIncreasing(l)
    requires forall y :: y in l ==> Precedes(x, y)
    ensures AllWeighable([x] + l) && NonIncreasing([x] + l)
  {
    var r := [x] + l;
    forall i, j | 0 <= i < j < |r| ensures Precedes(r[i], r[j]) {
      assert r[j] == l[j - 1];
      if i > 0 {
        assert r[i] == l[i - 1];
      }
    }
  }

  lemma {:induction false} InsertKeepsOrder(e: MediaType, l: seq<MediaType>)
    requires Weighable(e) && AllWeighable(l) && NonIncreasing(l)
    ensures NonIncreasing(Insert(e, l))
  {
    if |l| == 0 {
    } else if Precedes(e, l[0]) {
      forall y | y in l ensures Precedes(e, y) {
        var j :| 0 <= j < |l| && l[j] == y;
        if j > 0 {
          PrecedesTransitive(e, l[0], y);
        }
      }
      ConsNonIncreasing(e, l);
    } else {
      var rest := l[1..];
      assert NonIncreasing(rest);
      InsertKeepsOrder(e, rest);
      var ins := Insert(e, rest);
      PrecedesTotal(e, l[0]);
      forall y | y in ins ensures Precedes(l[0], y) {
        assert y in multiset(ins);
        if y != e {
          assert y in multiset(rest);
          var j :| 0 <= j < |rest| && rest[j] == y;
          assert l[j + 1] == y;
        }
      }
      ConsNonIncreasing(l[0], ins);
    }
  }

  /** `sorted(self, reverse=True)`: a stable sort, highest precedence first. */
  function SortedByPrecedence(l: seq<MediaType>): (r: seq<MediaType>)
    requires AllWeighable(l)
    ensures multiset(r) == multiset(l)
    ensures |r| == |l|
    ensures AllWeighable(r)
  {
    if |l| == 0 then []
    else
      assert l == [l[0]] + l[1..];
      Insert(l[0], SortedByPrecedence(l[1..]))
  }

  /** The sorted list is a permutation of the input in non-increasing precedence order. */
  lemma {:induction false} SortedIsOrdered(l: seq<MediaType>)
    requires AllWeighable(l)
    ensures NonIncreasing(SortedByPrecedence(l))
    ensures multiset(SortedByPrecedence(l)) == multiset(l)
  {
    if |l| > 0 {
      assert l == [l[0]] + l[1..];
      SortedIsOrdered(l[1..]);
      InsertKeepsOrder(l[0], SortedByPrecedence(l[1..]));
    }
  }

  /** The elements of `l` that rank exactly like `x`, in order. */
  function Tier(l: seq<MediaType>, x: MediaType): seq<MediaType>
    requires AllWeighable(l) && Weighable(x)
  {
    if |l| == 0 then []
    else
      assert l == [l[0]] + l[1..];
      (if Compare(l[0], x, false, false) == 0 then [l[0]] else []) + Tier(l[1..], x)
  }

  /** Two media types that rank like a third rank alike. */
  lemma SameTier(a: MediaType, b: MediaType, x: MediaType)
    requires Weighable(a) && Weighable(b) && Weighable(x)
    requires Compare(a, x, false, false) == 0 && Compare(b, x, false, false) == 0
    ensures Compare(a, b, false, false) == 0
  {
    CompareIsPreorder(a, x, b, false, false);
    CompareIsPreorder(b, x, a, false, false);
  }

  /** Two prefixes commute when one of them is empty. */
  lemma SwapDisjoint<T>(a: seq<T>, b: seq<T>, t: seq<T>)
    requires a == [] || b == []
    ensures a + (b + t) == b + (a + t)
  {
    if a == [] {
      assert a + (b + t) == b + t;
    } else {
      assert b + (a + t) == a + t;
    }
  }

  lemma TierCons(h: MediaType, t: seq<MediaType>, x: MediaType)
    requires Weighable(h) && AllWeighable(t) && Weighable(x)
    ensures AllWeighable([h] + t)
    ensures Tier([h] + t, x) == (if Compare(h, x, false, false) == 0 then [h] else []) + Tier(t, x)
  {
    assert ([h] + t)[1..] == t;
  }

  lemma {:induction false} InsertTier(e: MediaType, l: seq<MediaType>, x: MediaType)
    requires Weighable(e) && AllWeighable(l) && Weighable(x)
    ensures Tier(Insert(e, l), x) == (if Compare(e, x, false, false) == 0 then [e] else []) + Tier(l, x)
  {
    if |l| > 0 && !Precedes(e, l[0]) {
      var rest := l[1..];
      InsertTier(e, rest, x);
      var te := if Compare(e, x, false, false) == 0 then [e] else [];
      var th := if Compare(l[0], x, false, false) == 0 then [l[0]] else [];
      if te != [] && th != [] {
        SameTier(e, l[0], x);
        assert false;
      }
      TierCons(l[0], Insert(e, rest), x);
      TierCons(l[0], rest, x);
      assert l == [l[0]] + rest;
      assert Insert(e, l) == [l[0]] + Insert(e, rest);
      SwapDisjoint(th, te, Tier(rest, x));
    } else if |l| > 0 {
      TierCons(e, l, x);
    }
  }

  /** Sorting is stable: elements of equal precedence keep their relative order. */
  lemma {:induction false} SortIsStable(l: seq<MediaType>, x: MediaType)
    requires AllWeighable(l) && Weighable(x)
    ensures Tier(SortedByPrecedence(l), x) == Tier(l, x)
  {
    if |l| > 0 {
      assert l == [l[0]] + l[1..];
      SortIsStable(l[1..], x);
      InsertTier(l[0], SortedByPrecedence(l[1..]), x);
    }
  }

  // ---------------------------------------------------------------------------
  // Membership
  // ---------------------------------------------------------------------------

  /**
   * `MediaTypeList.is_match`: walk the list in precedence order and report
   * whether some element matches `m`.
   */
  method ListIsMatch(l: seq<MediaType>, m: MediaType, ignoreQuality: bool, ignoreParameters: bool)
    returns (found: bool)
    requires AllWeighable(l) && forall a :: a in l ==> MatchReadable(a, m, ignoreQuality)
    ensures found <==> exists a :: a in l && IsMatch(a, m, ignoreQuality, ignoreParameters)
  {
    var ranked := SortedByPrecedence(l);
    SortedSameMembers(l);
    found := AnyMatches(ranked, m, ignoreQuality, ignoreParameters);
    if found {
      var j :| 0 <= j < |ranked| && IsMatch(ranked[j], m, ignoreQuality, ignoreParameters);
      assert ranked[j] in l;
    } else {
      forall a | a in l ensures !IsMatch(a, m, ignoreQuality, ignoreParameters) {
        var j :| 0 <= j < |ranked| && ranked[j] == a;
      }
    }
  }

  /** The loop of `is_match` over the sorted list: it stops at the first element that matches `m`. */
  method AnyMatches(ranked: seq<MediaType>, m: MediaType, ignoreQuality: bool, ignoreParameters: bool)
    returns (found: bool)
    requires forall j :: 0 <= j < |ranked| ==> MatchReadable(ranked[j], m, ignoreQuality)
    ensures found <==> exists j :: 0 <= j < |ranked| && IsMatch(ranked[j], m, ignoreQuality, ignoreParameters)
  {
    for i := 0 to |ranked|
      invariant forall j :: 0 <= j < i ==> !IsMatch(ranked[j], m, ignoreQuality, ignoreParameters)
    {
      if IsMatch(ranked[i], m, ignoreQuality, ignoreParameters) {
        return true;
      }
    }
    return false;
  }

  /** Sorting keeps exactly the members of the list. */
  lemma SortedSameMembers(l: seq<MediaType>)
    requires AllWeighable(l)
    ensures forall a :: a in l <==> a in SortedByPrecedence(l)
  {
    var ranked := SortedByPrecedence(l);
    forall a ensures a in l <==> a in ranked {
      assert a in l <==> a in multiset(l);
      assert a in ranked <==> a in multiset(ranked);
    }
  }

  // ---------------------------------------------------------------------------
  // Best match
  // ---------------------------------------------------------------------------

  /** A pair `(other media type, own media type)`. */
  type Pairing = (MediaType, MediaType)

  /** `[(b, a) for b in remaining if a.is_match(b)]`. */
  function Hits(a: MediaType, remaining: seq<MediaType>, iq: bool, ip: bool): (r: seq<Pairing>)
    requires Weighable(a) && (iq || AllWeighable(remaining))
    ensures forall k :: 0 <= k < |r| ==> r[k].1 == a && r[k].0 in remaining && IsMatch(a, r[k].0, iq, ip)
  {
    if |remaining| == 0 then []
    else
      assert remaining == [remaining[0]] + remaining[1..];
      (if IsMatch(a, remaining[0], iq, ip) then [(remaining[0], a)] else []) + Hits(a, remaining[1..], iq, ip)
  }

  /** `[b for b in remaining if not a.is_match(b)]`. */
  function Misses(a: MediaType, remaining: seq<MediaType>, iq: bool, ip: bool): (r: seq<MediaType>)
    requires Weighable(a) && (iq || AllWeighable(remaining))
    ensures forall b :: b in r ==> b in remaining && !IsMatch(a, b, iq, ip)
    ensures |r| <= |remaining|
    ensures AllWeighable(remaining) ==> AllWeighable(r)
  {
    if |remaining| == 0 then []
    else
      assert remaining == [remaining[0]] + remaining[1..];
      (if IsMatch(a, remaining[0], iq, ip) then [] else [remaining[0]]) + Misses(a, remaining[1..], iq, ip)
  }

  /**
   * The pairs the loop of `best_match` collects when it walks `ranked` in
   * order: each element takes every remaining media type it matches, and
   * stops the walk once none remain.
   */
  function Greedy(ranked: seq<MediaType>, remaining: seq<MediaType>, iq: bool, ip: bool): seq<Pairing>
    requires AllWeighable(ranked) && (iq || AllWeighable(remaining))
  {
    if |ranked| == 0 || |remaining| == 0 then []
    else
      assert ranked == [ranked[0]] + ranked[1..];
      Hits(ranked[0], remaining, iq, ip) + Greedy(ranked[1..], Misses(ranked[0], remaining, iq, ip), iq, ip)
  }

  lemma GreedyStep(ranked: seq<MediaType>, i: nat, remaining: seq<MediaType>, iq: bool, ip: bool)
    requires AllWeighable(ranked) && (iq || AllWeighable(remaining)) && i < |ranked| && |remaining| > 0
    ensures AllWeighable(ranked[i..]) && AllWeighable(ranked[i + 1..])
    ensures Greedy(ranked[i..], remaining, iq, ip) ==
      Hits(ranked[i], remaining, iq, ip) + Greedy(ranked[i + 1..], Misses(ranked[i], remaining, iq, ip), iq, ip)
  {
    assert ranked[i..][1..] == ranked[i + 1..];
  }

  /** One step of the walk: the hits of the next element are collected and only its misses stay unmatched. */
  lemma GreedyAdvance(ranked: seq<MediaType>, i: nat, remaining: seq<MediaType>, matched: seq<Pairing>,
                      target: seq<Pairing>, iq: bool, ip: bool)
    requires AllWeighable(ranked) && (iq || AllWeighable(remaining)) && i < |ranked| && |remaining| > 0
    requires AllWeighable(ranked[i..])
    requires matched + Greedy(ranked[i..], remaining, iq, ip) == target
    ensures iq || AllWeighable(Misses(ranked[i], remaining, iq, ip))
    ensures AllWeighable(ranked[i + 1..])
    ensures (matched + Hits(ranked[i], remaining, iq, ip))
              + Greedy(ranked[i + 1..], Misses(ranked[i], remaining, iq, ip), iq, ip) == target
  {
    GreedyStep(ranked, i, remaining, iq, ip);
    ConcatAssociates(matched, Hits(ranked[i], remaining, iq, ip),
                     Greedy(ranked[i + 1..], Misses(ranked[i], remaining, iq, ip), iq, ip));
  }

  lemma ConcatAssociates<T>(a: seq<T>, b: seq<T>, c: seq<T>)
    ensures (a + b) + c == a + (b + c)
  {
  }

  /** `self.best_match(other)` on lists already cast. */
  function BestMatches(self: seq<MediaType>, other: seq<MediaType>, iq: bool, ip: bool): seq<Pairing>
    requires AllWeighable(self) && (iq || AllWeighable(other))
  {
    Greedy(SortedByPrecedence(self), other, iq, ip)
  }

  /**
   * `MediaTypeList.best_match`: walk this list in precedence order, pair every
   * still-unmatched media type of `other` with the first element that matches
   * it, and stop once every one of them is matched.
   */
  method BestMatch(self: seq<MediaType>, other: seq<MediaType>, ignoreQuality: bool, ignoreParameters: bool)
    returns (matched: seq<Pairing>)
    requires AllWeighable(self) && (ignoreQuality || AllWeighable(other))
    ensures matched == BestMatches(self, other, ignoreQuality, ignoreParameters)
  {
    var ranked := SortedByPrecedence(self);
    matched := MatchInOrder(ranked, other, ignoreQuality, ignoreParameters);
  }

  /**
   * The loop of `best_match` over the sorted list: each element takes the
   * remaining media types it matches, until none remain.
   */
  method MatchInOrder(ranked: seq<MediaType>, other: seq<MediaType>, ignoreQuality: bool, ignoreParameters: bool)
    returns (matched: seq<Pairing>)
    requires AllWeighable(ranked) && (ignoreQuality || AllWeighable(other))
    ensures matched == Greedy(ranked, other, ignoreQuality, ignoreParameters)
  {
    matched := [];
    var remaining := other;
    var i := 0;
    while i < |ranked|
      invariant 0 <= i <= |ranked|
      invariant ignoreQuality || AllWeighable(remaining)
      invariant AllWeighable(ranked[i..])
      invariant matched + Greedy(ranked[i..], remaining, ignoreQuality, ignoreParameters)
             == Greedy(ranked, other, ignoreQuality, ignoreParameters)
    {
      if |remaining| == 0 {
        break;
      }
      GreedyAdvance(ranked, i, remaining, matched, Greedy(ranked, other, ignoreQuality, ignoreParameters),
                    ignoreQuality, ignoreParameters);
      matched := matched + Hits(ranked[i], remaining, ignoreQuality, ignoreParameters);
      remaining := Misses(ranked[i], remaining, ignoreQuality, ignoreParameters);
      i := i + 1;
    }
    GreedyDone(ranked[i..], remaining, matched, ignoreQuality, ignoreParameters);
  }

  /** With nothing left to rank or nothing left to match, no more pairs are collected. */
  lemma GreedyDone(ranked: seq<MediaType>, remaining: seq<MediaType>, matched: seq<Pairing>, iq: bool, ip: bool)
    requires AllWeighable(ranked) && (iq || AllWeighable(remaining))
    requires |ranked| == 0 || |remaining| == 0
    ensures matched + Greedy(ranked, remaining, iq, ip) == matched
  {
  }

  /** A first-match loop over `s` from position `from` on: the first position whose element satisfies `p`. */
  function FirstIndex<T>(s: seq<T>, p: T -> bool, from: nat): (r: Option<nat>)
    requires from <= |s|
    decreases |s| - from
    ensures r.Some? ==> from <= r.value < |s| && p(s[r.value])
    ensures r.Some? ==> forall j :: from <= j < r.value ==> !p(s[j])
    ensures r.None? ==> forall j :: from <= j < |s| ==> !p(s[j])
  {
    if from == |s| then None
    else
      var rest := FirstIndex(s, p, from + 1);
      if p(s[from]) then Some(from) else rest
  }

  /** The position of the first element of `ranked` that matches `b`. */
  function FirstMatching(ranked: seq<MediaType>, b: MediaType, iq: bool, ip: bool): (r: Option<nat>)
    requires AllWeighable(ranked) && (iq || Weighable(b))
    ensures r.Some? ==> r.value < |ranked| && IsMatch(ranked[r.value], b, iq, ip)
    ensures r.Some? ==> forall j :: 0 <= j < r.value ==> !IsMatch(ranked[j], b, iq, ip)
    ensures r.None? <==> forall j :: 0 <= j < |ranked| ==> !IsMatch(ranked[j], b, iq, ip)
  {
    FirstIndex(ranked, (a: MediaType) => (iq || (Weighable(a) && Weighable(b))) && IsMatch(a, b, iq, ip), 0)
  }

  /** The first match in a list is its head when the head matches, and otherwise one past the first match in its tail. */
  lemma FirstMatchingStep(ranked: seq<MediaType>, b: MediaType, iq: bool, ip: bool)
    requires AllWeighable(ranked) && (iq || Weighable(b)) && |ranked| > 0
    ensures AllWeighable(ranked[1..])
    ensures IsMatch(ranked[0], b, iq, ip) ==> FirstMatching(ranked, b, iq, ip) == Some(0)
    ensures !IsMatch(ranked[0], b, iq, ip) ==>
      FirstMatching(ranked, b, iq, ip) ==
        match FirstMatching(ranked[1..], b, iq, ip)
        case None => None
        case Some(j) => Some(j + 1)
  {
    var tail := ranked[1..];
    assert forall k :: 0 <= k < |tail| ==> tail[k] == ranked[k + 1];
    var r := FirstMatching(ranked, b, iq, ip);
    var t := FirstMatching(tail, b, iq, ip);
    if !IsMatch(ranked[0], b, iq, ip) {
      if t.Some? {
        assert r.Some?;
        assert r.value > 0;
        assert IsMatch(tail[r.value - 1], b, iq, ip);
        assert IsMatch(ranked[t.value + 1], b, iq, ip);
      } else {
        forall j | 0 <= j < |ranked| ensures !IsMatch(ranked[j], b, iq, ip) {
          if j > 0 {
            assert ranked[j] == tail[j - 1];
          }
        }
      }
    }
  }

  function Firsts(pairs: seq<Pairing>): (r: seq<MediaType>)
    ensures |r| == |pairs| && forall k :: 0 <= k < |pairs| ==> r[k] == pairs[k].0
  {
    if |pairs| == 0 then [] else [pairs[0].0] + Firsts(pairs[1..])
  }

  function Seconds(pairs: seq<Pairing>): (r: seq<MediaType>)
    ensures |r| == |pairs| && forall k :: 0 <= k < |pairs| ==> r[k] == pairs[k].1
  {
    if |pairs| == 0 then [] else [pairs[0].1] + Seconds(pairs[1..])
  }

  lemma {:induction false} HitsCount(a: MediaType, remaining: seq<MediaType>, iq: bool, ip: bool, b: MediaType, hit: bool)
    requires Weighable(a) && (iq || AllWeighable(remaining)) && (iq || Weighable(b))
    requires hit == IsMatch(a, b, iq, ip)
    ensures multiset(Firsts(Hits(a, remaining, iq, ip)))[b] == if hit then multiset(remaining)[b] else 0
  {
    if |remaining| > 0 {
      var r0 := remaining[0];
      var rest := remaining[1..];
      assert remaining == [r0] + rest;
      HitsCount(a, rest, iq, ip, b, hit);
      var hRest := Hits(a, rest, iq, ip);
      var h := Hits(a, remaining, iq, ip);
      if IsMatch(a, r0, iq, ip) {
        assert h == [(r0, a)] + hRest;
        assert h[1..] == hRest;
      } else {
        assert h == hRest;
        assert r0 != b || !hit;
      }
    }
  }

  lemma {:induction false} MissesCount(a: MediaType, remaining: seq<MediaType>, iq: bool, ip: bool, b: MediaType, hit: bool)
    requires Weighable(a) && (iq || AllWeighable(remaining)) && (iq || Weighable(b))
    requires hit == IsMatch(a, b, iq, ip)
    ensures multiset(Misses(a, remaining, iq, ip))[b] == if hit then 0 else multiset(remaining)[b]
  {
    if |remaining| > 0 {
      var r0 := remaining[0];
      var rest := remaining[1..];
      assert remaining == [r0] + rest;
      MissesCount(a, rest, iq, ip, b, hit);
      if IsMatch(a, r0, iq, ip) {
        assert r0 != b || hit;
      }
    }
  }

  lemma FirstsOfConcat(x: seq<Pairing>, y: seq<Pairing>)
    ensures Firsts(x + y) == Firsts(x) + Firsts(y)
    ensures Seconds(x + y) == Seconds(x) + Seconds(y)
  {
    var xy := x + y;
    forall k | 0 <= k < |xy|
      ensures Firsts(xy)[k] == (Firsts(x) + Firsts(y))[k]
      ensures Seconds(xy)[k] == (Seconds(x) + Seconds(y))[k]
    {
      if k < |x| {
        assert xy[k] == x[k];
      } else {
        assert xy[k] == y[k - |x|];
      }
    }
  }

  /**
   * Every media type of `remaining` is paired exactly as often as it occurs
   * when some element of `ranked` matches it, and never otherwise.
   */
  lemma {:induction false} GreedyCovers(ranked: seq<MediaType>, remaining: seq<MediaType>, iq: bool, ip: bool, b: MediaType)
    requires AllWeighable(ranked) && (iq || AllWeighable(remaining)) && (iq || Weighable(b))
    ensures multiset(Firsts(Greedy(ranked, remaining, iq, ip)))[b] ==
      if FirstMatching(ranked, b, iq, ip).Some? then multiset(remaining)[b] else 0
  {
    if |ranked| > 0 && |remaining| > 0 {
      var a := ranked[0];
      var misses := Misses(a, remaining, iq, ip);
      GreedyCovers(ranked[1..], misses, iq, ip, b);
      FirstMatchingStep(ranked, b, iq, ip);
      HitsCount(a, remaining, iq, ip, b, IsMatch(a, b, iq, ip));
      MissesCount(a, remaining, iq, ip, b, IsMatch(a, b, iq, ip));
      FirstsOfConcat(Hits(a, remaining, iq, ip), Greedy(ranked[1..], misses, iq, ip));
    } else if |ranked| > 0 {
      if FirstMatching(ranked, b, iq, ip).Some? {
        assert multiset(remaining)[b] == 0;
      }
    }
  }

  /** Each media type is paired with the first element of `ranked` that matches it. */
  lemma {:induction false} GreedyPairsFirstMatch(ranked: seq<MediaType>, remaining: seq<MediaType>, iq: bool, ip: bool)
    requires AllWeighable(ranked) && (iq || AllWeighable(remaining))
    ensures forall k :: 0 <= k < |Greedy(ranked, remaining, iq, ip)| ==>
      var (b, a) := Greedy(ranked, remaining, iq, ip)[k];
      b in remaining && (iq || Weighable(b)) &&
      FirstMatching(ranked, b, iq, ip).Some? && a == ranked[FirstMatching(ranked, b, iq, ip).value]
  {
    if |ranked| > 0 && |remaining| > 0 {
      var a0 := ranked[0];
      var hits := Hits(a0, remaining, iq, ip);
      var misses := Misses(a0, remaining, iq, ip);
      var tail := Greedy(ranked[1..], misses, iq, ip);
      GreedyPairsFirstMatch(ranked[1..], misses, iq, ip);
      var g := Greedy(ranked, remaining, iq, ip);
      assert g == hits + tail;
      forall k | 0 <= k < |g|
        ensures var (b, a) := g[k];
          b in remaining && (iq || Weighable(b)) &&
          FirstMatching(ranked, b, iq, ip).Some? && a == ranked[FirstMatching(ranked, b, iq, ip).value]
      {
        if k < |hits| {
          assert g[k] == hits[k];
          FirstMatchingStep(ranked, g[k].0, iq, ip);
        } else {
          assert g[k] == tail[k - |hits|];
          var b := g[k].0;
          assert b in misses;
          assert !IsMatch(a0, b, iq, ip);
          FirstMatchingStep(ranked, b, iq, ip);
        }
      }
    }
  }

  lemma AppendNonIncreasing(x: seq<MediaType>, y: seq<MediaType>)
    requires AllWeighable(x) && AllWeighable(y) && NonIncreasing(x) && NonIncreasing(y)
    requires forall u, v :: u in x && v in y ==> Precedes(u, v)
    ensures AllWeighable(x + y) && NonIncreasing(x + y)
  {
    var r := x + y;
    forall i, j | 0 <= i < j < |r| ensures Precedes(r[i], r[j]) {
      if j < |x| {
        assert r[i] == x[i] && r[j] == x[j];
      } else if i < |x| {
        assert r[i] == x[i] && r[j] == y[j - |x|];
      } else {
        assert r[i] == y[i - |x|] && r[j] == y[j - |x|];
      }
    }
  }

  /** The own media types of the pairs come from `ranked` and appear in its order. */
  lemma {:induction false} GreedyFollowsRanking(ranked: seq<MediaType>, remaining: seq<MediaType>, iq: bool, ip: bool)
    requires AllWeighable(ranked) && (iq || AllWeighable(remaining)) && NonIncreasing(ranked)
    ensures forall v :: v in Seconds(Greedy(ranked, remaining, iq, ip)) ==> v in ranked
    ensures AllWeighable(Seconds(Greedy(ranked, remaining, iq, ip)))
    ensures NonIncreasing(Seconds(Greedy(ranked, remaining, iq, ip)))
  {
    if |ranked| > 0 && |remaining| > 0 {
      var a0 := ranked[0];
      var rest := ranked[1..];
      var hits := Hits(a0, remaining, iq, ip);
      var tail := Greedy(rest, Misses(a0, remaining, iq, ip), iq, ip);
      assert NonIncreasing(rest);
      GreedyFollowsRanking(rest, Misses(a0, remaining, iq, ip), iq, ip);
      assert Greedy(ranked, remaining, iq, ip) == hits + tail;
      FirstsOfConcat(hits, tail);
      var sh := Seconds(hits);
      var st := Seconds(tail);
      SecondsOfHits(a0, remaining, iq, ip);
      FollowsHead(ranked, st);
      AppendNonIncreasing(sh, st);
    }
  }

  /** The pairs one element collects all carry that element. */
  lemma SecondsOfHits(a: MediaType, remaining: seq<MediaType>, iq: bool, ip: bool)
    requires Weighable(a) && (iq || AllWeighable(remaining))
    ensures forall u :: u in Seconds(Hits(a, remaining, iq, ip)) ==> u == a
    ensures AllWeighable(Seconds(Hits(a, remaining, iq, ip)))
    ensures NonIncreasing(Seconds(Hits(a, remaining, iq, ip)))
  {
    var sh := Seconds(Hits(a, remaining, iq, ip));
    assert forall u :: u in sh ==> u == a;
    PrecedesTotal(a, a);
  }

  /** What comes from the rest of a ranked list is in the list and outranked by its head. */
  lemma FollowsHead(ranked: seq<MediaType>, st: seq<MediaType>)
    requires AllWeighable(ranked) && NonIncreasing(ranked) && |ranked| > 0
    requires forall v :: v in st ==> v in ranked[1..]
    ensures forall v :: v in st ==> v in ranked && Precedes(ranked[0], v)
  {
    forall v | v in st ensures v in ranked && Precedes(ranked[0], v) {
      var j :| 0 <= j < |ranked[1..]| && ranked[1..][j] == v;
      assert ranked[j + 1] == v;
    }
  }

  /** Every pair of `best_match` matches a media type of `other` with its highest-precedence match in this list. */
  lemma BestMatchesPairs(self: seq<MediaType>, other: seq<MediaType>, iq: bool, ip: bool)
    requires AllWeighable(self) && (iq || AllWeighable(other))
    ensures forall k :: 0 <= k < |BestMatches(self, other, iq, ip)| ==>
      var (b, a) := BestMatches(self, other, iq, ip)[k];
      b in other && a in self && (iq || Weighable(b)) && IsMatch(a, b, iq, ip) &&
      forall a' :: a' in self && IsMatch(a', b, iq, ip) ==> Precedes(a, a')
  {
    var ranked := SortedByPrecedence(self);
    SortedIsOrdered(self);
    assert forall a :: a in self <==> a in ranked by {
      forall a ensures a in self <==> a in ranked {
        assert a in self <==> a in multiset(self);
        assert a in ranked <==> a in multiset(ranked);
      }
    }
    var g := BestMatches(self, other, iq, ip);
    GreedyPairsFirstMatch(ranked, other, iq, ip);
    forall k | 0 <= k < |g|
      ensures var (b, a) := g[k];
        b in other && a in self && (iq || Weighable(b)) && IsMatch(a, b, iq, ip) &&
        forall a' :: a' in self && IsMatch(a', b, iq, ip) ==> Precedes(a, a')
    {
      var (b, a) := g[k];
      var i := FirstMatching(ranked, b, iq, ip).value;
      forall a' | a' in self && IsMatch(a', b, iq, ip) ensures Precedes(a, a') {
        var j :| 0 <= j < |ranked| && ranked[j] == a';
        if j != i {
          assert i < j;
        } else {
          PrecedesTotal(a, a);
        }
      }
    }
  }

  /**
   * A media type of `other` is paired by `best_match` exactly as often as it
   * occurs there when some element of this list matches it, and never otherwise.
   */
  lemma BestMatchesCover(self: seq<MediaType>, other: seq<MediaType>, iq: bool, ip: bool, b: MediaType)
    requires AllWeighable(self) && (iq || AllWeighable(other)) && b in other
    ensures multiset(Firsts(BestMatches(self, other, iq, ip)))[b] ==
      if exists a :: a in self && IsMatch(a, b, iq, ip) then multiset(other)[b] else 0
  {
    var ranked := SortedByPrecedence(self);
    GreedyCovers(ranked, other, iq, ip, b);
    if exists a :: a in self && IsMatch(a, b, iq, ip) {
      var a :| a in self && IsMatch(a, b, iq, ip);
      assert a in multiset(self);
      assert a in multiset(ranked);
      var j :| 0 <= j < |ranked| && ranked[j] == a;
    } else {
      forall j | 0 <= j < |ranked| ensures !IsMatch(ranked[j], b, iq, ip) {
        assert ranked[j] in multiset(ranked);
      }
    }
  }

  /** The pairs of `best_match` come in non-increasing precedence of this list's elements. */
  lemma BestMatchesOrdered(self: seq<MediaType>, other: seq<MediaType>, iq: bool, ip: bool)
    requires AllWeighable(self) && (iq || AllWeighable(other))
    ensures AllWeighable(Seconds(BestMatches(self, other, iq, ip)))
    ensures NonIncreasing(Seconds(BestMatches(self, other, iq, ip)))
  {
    SortedIsOrdered(self);
    GreedyFollowsRanking(SortedByPrecedence(self), other, iq, ip);
  }

  /** The first media type of `remaining` that `a` matches. */
  function FirstHit(a: MediaType, remaining: seq<MediaType>, iq: bool, ip: bool): Option<MediaType>
    requires Weighable(a) && (iq || AllWeighable(remaining))
  {
    if |remaining| == 0 then None
    else if IsMatch(a, remaining[0], iq, ip) then Some(remaining[0])
    else FirstHit(a, remaining[1..], iq, ip)
  }

  /** The first pair the walk over `ranked` collects: the first element with a hit, and its first hit. */
  function FirstPair(ranked: seq<MediaType>, other: seq<MediaType>, iq: bool, ip: bool): Option<Pairing>
    requires AllWeighable(ranked) && (iq || AllWeighable(other))
  {
    if |ranked| == 0 then None
    else
      match FirstHit(ranked[0], other, iq, ip)
      case Some(b) => Some((b, ranked[0]))
      case None => FirstPair(ranked[1..], other, iq, ip)
  }

  /** `first_match`: the first pair `best_match` returns, if any (see `FirstMatchIsHeadOfBest`). */
  function FirstMatch(self: seq<MediaType>, other: seq<MediaType>, iq: bool, ip: bool): Option<Pairing>
    requires AllWeighable(self) && (iq || AllWeighable(other))
  {
    FirstPair(SortedByPrecedence(self), other, iq, ip)
  }

  /** With no hit nothing is collected and nothing is removed; otherwise the first hit is collected first. */
  lemma {:induction false} FirstHitHeadsHits(a: MediaType, remaining: seq<MediaType>, iq: bool, ip: bool)
    requires Weighable(a) && (iq || AllWeighable(remaining))
    ensures FirstHit(a, remaining, iq, ip).None? ==>
      Hits(a, remaining, iq, ip) == [] && Misses(a, remaining, iq, ip) == remaining
    ensures FirstHit(a, remaining, iq, ip).Some? ==>
      |Hits(a, remaining, iq, ip)| > 0 && Hits(a, remaining, iq, ip)[0] == (FirstHit(a, remaining, iq, ip).value, a)
  {
    if |remaining| > 0 {
      var h, t := remaining[0], remaining[1..];
      assert remaining == [h] + t;
      FirstHitHeadsHits(a, t, iq, ip);
      if IsMatch(a, h, iq, ip) {
        assert Hits(a, remaining, iq, ip) == [(h, a)] + Hits(a, t, iq, ip);
      } else {
        assert Hits(a, remaining, iq, ip) == Hits(a, t, iq, ip);
        assert Misses(a, remaining, iq, ip) == [h] + Misses(a, t, iq, ip);
      }
    }
  }

  /** Against nothing, the walk finds no first pair. */
  lemma {:induction false} NothingToPair(ranked: seq<MediaType>, other: seq<MediaType>, iq: bool, ip: bool)
    requires AllWeighable(ranked) && (iq || AllWeighable(other)) && |other| == 0
    ensures FirstPair(ranked, other, iq, ip).None?
  {
    if |ranked| > 0 {
      NothingToPair(ranked[1..], other, iq, ip);
    }
  }

  lemma {:induction false} FirstPairIsHead(ranked: seq<MediaType>, other: seq<MediaType>, iq: bool, ip: bool)
    requires AllWeighable(ranked) && (iq || AllWeighable(other))
    ensures FirstPair(ranked, other, iq, ip) ==
      if |Greedy(ranked, other, iq, ip)| > 0 then Some(Greedy(ranked, other, iq, ip)[0]) else None
  {
    if |ranked| > 0 {
      if |other| == 0 {
        NothingToPair(ranked, other, iq, ip);
      } else {
        var a := ranked[0];
        FirstHitHeadsHits(a, other, iq, ip);
        var g := Greedy(ranked, other, iq, ip);
        assert g == Hits(a, other, iq, ip) + Greedy(ranked[1..], Misses(a, other, iq, ip), iq, ip);
        if FirstHit(a, other, iq, ip).Some? {
          assert g[0] == Hits(a, other, iq, ip)[0];
        } else {
          FirstPairIsHead(ranked[1..], other, iq, ip);
          assert g == Greedy(ranked[1..], other, iq, ip);
        }
      }
    }
  }

  /** `first_match` is `best_match()[0]`, or none when `best_match` is empty. */
  lemma FirstMatchIsHeadOfBest(self: seq<MediaType>, other: seq<MediaType>, iq: bool, ip: bool)
    requires AllWeighable(self) && (iq || AllWeighable(other))
    ensures FirstMatch(self, other, iq, ip) ==
      if |BestMatches(self, other, iq, ip)| > 0 then Some(BestMatches(self, other, iq, ip)[0]) else None
  {
    FirstPairIsHead(SortedByPrecedence(self), other, iq, ip);
  }

  /**
   * Against a single media type, `first_match` finds a pair exactly when some
   * element matches it, and pairs it with the highest-precedence such element.
   */
  lemma FirstMatchOfOne(self: seq<MediaType>, m: MediaType, iq: bool, ip: bool)
    requires AllWeighable(self) && (iq || Weighable(m))
    ensures FirstMatch(self, [m], iq, ip).Some? <==> exists a :: a in self && IsMatch(a, m, iq, ip)
    ensures FirstMatch(self, [m], iq, ip).Some? ==>
      var (b, a) := FirstMatch(self, [m], iq, ip).value;
      b == m && a in self && IsMatch(a, m, iq, ip) &&
      forall a' :: a' in self && IsMatch(a', m, iq, ip) ==> Precedes(a, a')
  {
    FirstMatchIsHeadOfBest(self, [m], iq, ip);
    BestMatchesPairs(self, [m], iq, ip);
    BestMatchesCover(self, [m], iq, ip, m);
    var g := BestMatches(self, [m], iq, ip);
    assert multiset([m])[m] == 1;
    if exists a :: a in self && IsMatch(a, m, iq, ip) {
      assert multiset(Firsts(g))[m] == 1;
      assert |g| > 0;
    }
  }

  /** A media type of `other` that some element matches is the first half of some pair of `best_match`. */
  lemma MatchedIsPaired(self: seq<MediaType>, other: seq<MediaType>, iq: bool, ip: bool, a: MediaType, b: MediaType)
    requires AllWeighable(self) && (iq || AllWeighable(other))
    requires a in self && b in other && IsMatch(a, b, iq, ip)
    ensures exists k :: 0 <= k < |BestMatches(self, other, iq, ip)| && BestMatches(self, other, iq, ip)[k].0 == b
  {
    var g := BestMatches(self, other, iq, ip);
    BestMatchesCover(self, other, iq, ip, b);
    assert b in multiset(other);
    assert b in Firsts(g);
  }

  /** In pairs whose own elements never increase, the first own element outranks whatever a later one outranks. */
  lemma {:induction false} HeadOutranks(g: seq<Pairing>, k: nat, a: MediaType)
    requires k < |g| && AllWeighable(Seconds(g)) && NonIncreasing(Seconds(g)) && Weighable(a)
    requires Precedes(g[k].1, a)
    ensures Precedes(g[0].1, a)
  {
    if k > 0 {
      assert Precedes(Seconds(g)[0], Seconds(g)[k]);
      assert g[k].1 in Seconds(g);
      PrecedesTransitive(g[0].1, g[k].1, a);
    }
  }

  /** `first_match` finds a pair exactly when some element matches some media type of `other`. */
  lemma FirstMatchFinds(self: seq<MediaType>, other: seq<MediaType>, iq: bool, ip: bool)
    requires AllWeighable(self) && (iq || AllWeighable(other))
    ensures FirstMatch(self, other, iq, ip).Some? <==>
      exists a, b :: a in self && b in other && IsMatch(a, b, iq, ip)
  {
    FirstMatchIsHeadOfBest(self, other, iq, ip);
    if exists a, b :: a in self && b in other && IsMatch(a, b, iq, ip) {
      var a, b :| a in self && b in other && IsMatch(a, b, iq, ip);
      MatchedIsPaired(self, other, iq, ip, a, b);
    }
    if FirstMatch(self, other, iq, ip).Some? {
      BestMatchesPairs(self, other, iq, ip);
      var g := BestMatches(self, other, iq, ip);
      assert g[0].0 in other && g[0].1 in self && IsMatch(g[0].1, g[0].0, iq, ip);
    }
  }

  /**
   * The element `first_match` pairs outranks or ties with every element that
   * matches anything in `other`.
   */
  lemma FirstMatchOutranks(self: seq<MediaType>, other: seq<MediaType>, iq: bool, ip: bool)
    requires AllWeighable(self) && (iq || AllWeighable(other))
    ensures FirstMatch(self, other, iq, ip).Some? ==>
      var (b, a) := FirstMatch(self, other, iq, ip).value;
      b in other && a in self && IsMatch(a, b, iq, ip) &&
      forall a', b' :: a' in self && b' in other && IsMatch(a', b', iq, ip) ==> Precedes(a, a')
  {
    FirstMatchIsHeadOfBest(self, other, iq, ip);
    var g := BestMatches(self, other, iq, ip);
    if |g| > 0 {
      BestMatchesPairs(self, other, iq, ip);
      BestMatchesOrdered(self, other, iq, ip);
      forall a', b' | a' in self && b' in other && IsMatch(a', b', iq, ip)
        ensures Precedes(g[0].1, a')
      {
        MatchedIsPaired(self, other, iq, ip, a', b');
        var k :| 0 <= k < |g| && g[k].0 == b';
        HeadOutranks(g, k, a');
      }
    }
  }
}
