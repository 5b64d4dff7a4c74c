/**
 * The library's error classes (bottlecap/exceptions.py). Every class shares
 * one constructor, which overrides the class's default status code, error code
 * and description only where an argument is given, and one `to_dict`, which
 * reports those three fields plus the error list when that list is non-empty.
 * A class attribute that neither the class nor any ancestor defines is
 * modelled as none; reading it makes `to_dict` fail with the attribute's name.
 */
module Exceptions {
  import opened Wrappers

  datatype ErrorClass =
    | BaseError
    | ServerError
    | ClientError
    | BadRequestError
    | RequestSchemaError
    | ResponseSchemaError
    | NotAuthenticatedError
    | NotAuthorizedError

  /** The three class attributes an error class may define; none when the class body does not. */
  datatype Defaults = Defaults(statusCode: Option<int>, errorCode: Option<string>, errorDesc: Option<string>)

  /** The base class each class is declared with. */
  function Parent(k: ErrorClass): Option<ErrorClass> {
    match k
    case BaseError => None
    case ServerError => Some(BaseError)
    case ClientError => Some(BaseError)
    case ResponseSchemaError => Some(ServerError)
    case _ => Some(ClientError)
  }

  function Depth(k: ErrorClass): nat {
    match Parent(k)
    case None => 0
    case Some(p) => 1 + (if p == BaseError then 0 else 1)
  }

  const ServerErrorCode: string := "server_error"
  const ServerErrorDesc: string := "There was a server error, please try again later"
  const BadRequestCode: string := "bad_request"
  const BadRequestDesc: string := "Request was not properly formed"
  const RequestSchemaDesc: string := "Request payload does not match schema"
  const AuthErrorCode: string := "auth_error"
  const NotAuthenticatedDesc: string := "Client authentication failed"
  const NotAuthorizedDesc: string := "Client has insufficient authorization"

  /** The attributes written in each class body. */
  function OwnDefaults(k: ErrorClass): Defaults {
    match k
    case ServerError => Defaults(Some(500), Some(ServerErrorCode), Some(ServerErrorDesc))
    case BadRequestError => Defaults(Some(400), Some(BadRequestCode), Some(BadRequestDesc))
    case RequestSchemaError => Defaults(Some(400), Some(BadRequestCode), Some(RequestSchemaDesc))
    case NotAuthenticatedError => Defaults(Some(401), Some(AuthErrorCode), Some(NotAuthenticatedDesc))
    case NotAuthorizedError => Defaults(Some(403), Some(AuthErrorCode), Some(NotAuthorizedDesc))
    case _ => Defaults(None, None, None)
  }

  function Or<T>(a: Option<T>, b: Option<T>): Option<T> {
    if a.Some? then a else b
  }

  /** Attribute lookup along the base classes: a class's own attribute, else its parent's. */
  function ClassDefaults(k: ErrorClass): (d: Defaults)
    decreases Depth(k)
  {
    var own := OwnDefaults(k);
    match Parent(k)
    case None => own
    case Some(p) =>
      var inherited := ClassDefaults(p);
      Defaults(Or(own.statusCode, inherited.statusCode),
               Or(own.errorCode, inherited.errorCode),
               Or(own.errorDesc, inherited.errorDesc))
  }

  /** `k` is `ancestor` or derives from it. */
  predicate IsA(k: ErrorClass, ancestor: ErrorClass)
    decreases Depth(k)
  {
    k == ancestor || (Parent(k).Some? && IsA(Parent(k).value, ancestor))
  }

  /** The per-instance state of an error object. */
  datatype Fields = Fields(
    statusCode: Option<int>,
    errorCode: Option<string>,
    errorDesc: Option<string>,
    errors: Option<seq<string>>,
    originalExc: Option<string>)

  /** The state `__init__` leaves: each given argument replaces the class default, the rest are kept. */
  function Construct(k: ErrorClass, statusCode: Option<int>, errorCode: Option<string>, errorDesc: Option<string>,
                     errors: Option<seq<string>>, originalExc: Option<string>): (f: Fields)
    ensures f.statusCode == (if statusCode.Some? then statusCode else ClassDefaults(k).statusCode)
    ensures f.errorCode == (if errorCode.Some? then errorCode else ClassDefaults(k).errorCode)
    ensures f.errorDesc == (if errorDesc.Some? then errorDesc else ClassDefaults(k).errorDesc)
    ensures f.errors == errors && f.originalExc == originalExc
  {
    var d := ClassDefaults(k);
    Fields(Or(statusCode, d.statusCode), Or(errorCode, d.errorCode), Or(errorDesc, d.errorDesc), errors, originalExc)
  }

  /** The keyword parameters `__init__` declares; no class adds any. */
  const InitKeywords: set<string> := {"status_code", "error_code", "error_desc", "errors", "original_exc"}

  /**
   * Calling an error class with keyword arguments `names`: the first name
   * `__init__` does not declare makes the call raise `TypeError` before any
   * object exists; none means the call reaches `Construct`.
   */
  function UnknownKeyword(names: seq<string>): (r: Option<string>)
    ensures r.None? <==> forall i :: 0 <= i < |names| ==> names[i] in InitKeywords
    ensures r.Some? ==> exists i :: 0 <= i < |names| && names[i] == r.value
                          && r.value !in InitKeywords
                          && forall j :: 0 <= j < i ==> names[j] in InitKeywords
  {
    if |names| == 0 then None
    else if names[0] !in InitKeywords then Some(names[0])
    else
      var r := UnknownKeyword(names[1..]);
      if r.Some? then
        var i :| 0 <= i < |names[1..]| && names[1..][i] == r.value && r.value !in InitKeywords
                 && forall j :: 0 <= j < i ==> names[1..][j] in InitKeywords;
        assert names[i + 1] == r.value;
        r
      else r
  }

  /**
   * The keys of the dictionary `to_dict` returns, which are also the attribute
   * names it reads, and the `error_detail` key the authorization code's bad
   * requests are meant to report.
   */
  datatype Key = ErrorCodeKey | ErrorDescKey | StatusCodeKey | ErrorsKey | ErrorDetailKey

  function KeyName(k: Key): string {
    match k
    case ErrorCodeKey => "error_code"
    case ErrorDescKey => "error_desc"
    case StatusCodeKey => "status_code"
    case ErrorsKey => "errors"
    case ErrorDetailKey => "error_detail"
  }

  /** A value of the dictionary `to_dict` returns. */
  datatype Value = Int(i: int) | Str(s: string) | Messages(items: seq<string>)

  /** The error list is truthy. */
  predicate HasErrors(f: Fields) {
    f.errors.Some? && |f.errors.value| > 0
  }

  /**
   * `to_dict`: fails with the name of the first missing attribute in the order
   * the dictionary is built; otherwise holds exactly the three fields, plus
   * `errors` when that list is non-empty.
   */
  function AsDict(f: Fields): (r: Result<map<Key, Value>, Key>)
    ensures r.Success? <==> f.statusCode.Some? && f.errorCode.Some? && f.errorDesc.Some?
    ensures r.Failure? ==> r.error == (if f.errorCode.None? then ErrorCodeKey
                                       else if f.errorDesc.None? then ErrorDescKey else StatusCodeKey)
    ensures r.Success? ==> r.value.Keys == {ErrorCodeKey, ErrorDescKey, StatusCodeKey} + (if HasErrors(f) then {ErrorsKey} else {})
    ensures r.Success? ==>
              && r.value[ErrorCodeKey] == Str(f.errorCode.value)
              && r.value[ErrorDescKey] == Str(f.errorDesc.value)
              && r.value[StatusCodeKey] == Int(f.statusCode.value)
    ensures r.Success? && HasErrors(f) ==> r.value[ErrorsKey] == Messages(f.errors.value)
  {
    if f.errorCode.None? then Failure(ErrorCodeKey)
    else if f.errorDesc.None? then Failure(ErrorDescKey)
    else if f.statusCode.None? then Failure(StatusCodeKey)
    else
      var o := map[ErrorCodeKey := Str(f.errorCode.value), ErrorDescKey := Str(f.errorDesc.value),
                   StatusCodeKey := Int(f.statusCode.value)];
      if HasErrors(f) then Success(o[ErrorsKey := Messages(f.errors.value)]) else Success(o)
  }

  /**
   * The dictionary of an error raised with an `error_detail` argument, as the
   * authorization code means it: `to_dict` with the detail added. The
   * constructor declares no such argument, so this is the intended behaviour,
   * not the written one.
   */
  function AsDictWithDetail(f: Fields, detail: Option<string>): (r: Result<map<Key, Value>, Key>)
    ensures r.Success? <==> AsDict(f).Success?
    ensures r.Failure? ==> r == AsDict(f)
    ensures r.Success? ==> r.value.Keys == AsDict(f).value.Keys + (if detail.Some? then {ErrorDetailKey} else {})
    ensures r.Success? ==> forall k :: k in AsDict(f).value ==> r.value[k] == AsDict(f).value[k]
    ensures r.Success? && detail.Some? ==> r.value[ErrorDetailKey] == Str(detail.value)
  {
    match AsDict(f)
    case Failure(k) => Failure(k)
    case Success(o) => if detail.Some? then Success(o[ErrorDetailKey := Str(detail.value)]) else Success(o)
  }

  /** An error object; `kind` is its class. */
  class Error {
    const kind: ErrorClass
    var statusCode: Option<int>
    var errorCode: Option<string>
    var errorDesc: Option<string>
    var errors: Option<seq<string>>
    var originalExc: Option<string>

    function Snapshot(): Fields
      reads this
    {
      Fields(statusCode, errorCode, errorDesc, errors, originalExc)
    }

    /** `__init__`: starts from the class attributes and assigns each argument that is given. */
    constructor(kind: ErrorClass, statusCode: Option<int>, errorCode: Option<string>, errorDesc: Option<string>,
                errors: Option<seq<string>>, originalExc: Option<string>)
      ensures this.kind == kind
      ensures Snapshot() == Construct(kind, statusCode, errorCode, errorDesc, errors, originalExc)
    {
      this.kind := kind;
      var d := ClassDefaults(kind);
      this.statusCode := d.statusCode;
      this.errorCode := d.errorCode;
      this.errorDesc := d.errorDesc;
      new;
      if statusCode.Some? {
        this.statusCode := statusCode;
      }
      if errorCode.Some? {
        this.errorCode := errorCode;
      }
      if errorDesc.Some? {
        this.errorDesc := errorDesc;
      }
      this.errors := errors;
      this.originalExc := originalExc;
    }

    /** `to_dict`: builds the three-field dictionary, then adds `errors` when there are any. */
    method ToDict() returns (o: Result<map<Key, Value>, Key>)
      ensures o == AsDict(Snapshot())
    {
      if errorCode.None? {
        return Failure(ErrorCodeKey);
      }
      if errorDesc.None? {
        return Failure(ErrorDescKey);
      }
      if statusCode.None? {
        return Failure(StatusCodeKey);
      }
      var d := map[ErrorCodeKey := Str(errorCode.value), ErrorDescKey := Str(errorDesc.value),
                   StatusCodeKey := Int(statusCode.value)];
      if errors.Some? && |errors.value| > 0 {
        d := d[ErrorsKey := Messages(errors.value)];
      }
      o := Success(d);
    }
  }

  /** The defaults each class ends up with, its own or inherited. */
  lemma DefaultsTable()
    ensures ClassDefaults(BaseError) == Defaults(None, None, None)
    ensures ClassDefaults(ClientError) == Defaults(None, None, None)
    ensures ClassDefaults(ServerError) == OwnDefaults(ServerError)
    ensures ClassDefaults(ResponseSchemaError) == OwnDefaults(ServerError)
    ensures forall k :: IsA(k, ClientError) && k != ClientError ==> ClassDefaults(k) == OwnDefaults(k)
    ensures ClassDefaults(BadRequestError).statusCode == Some(400)
    ensures ClassDefaults(RequestSchemaError).statusCode == Some(400)
    ensures ClassDefaults(BadRequestError).errorCode == ClassDefaults(RequestSchemaError).errorCode == Some(BadRequestCode)
    ensures ClassDefaults(NotAuthenticatedError) == Defaults(Some(401), Some(AuthErrorCode), Some(NotAuthenticatedDesc))
    ensures ClassDefaults(NotAuthorizedError) == Defaults(Some(403), Some(AuthErrorCode), Some(NotAuthorizedDesc))
  {
  }

  /** Client errors carry a 4xx status and server errors a 5xx one, wherever a status is defined. */
  lemma StatusFamilies(k: ErrorClass)
    ensures IsA(k, ClientError) && ClassDefaults(k).statusCode.Some? ==> 400 <= ClassDefaults(k).statusCode.value < 500
    ensures IsA(k, ServerError) ==> ClassDefaults(k).statusCode == Some(500)
    ensures IsA(k, BaseError)
  {
    match k
    case BaseError =>
    case ServerError =>
    case ClientError =>
    case ResponseSchemaError =>
      assert ClassDefaults(k) == ClassDefaults(ServerError);
    case _ =>
      assert ClassDefaults(k) == OwnDefaults(k);
  }

  /** With no arguments, every class that defines all three attributes reports exactly them. */
  lemma DefaultDict(k: ErrorClass)
    requires k != BaseError && k != ClientError
    ensures AsDict(Construct(k, None, None, None, None, None))
         == Success(map[ErrorCodeKey := Str(ClassDefaults(k).errorCode.value),
                        ErrorDescKey := Str(ClassDefaults(k).errorDesc.value),
                        StatusCodeKey := Int(ClassDefaults(k).statusCode.value)])
  {
    var r := AsDict(Construct(k, None, None, None, None, None));
    assert r.Success?;
    assert r.value.Keys == {ErrorCodeKey, ErrorDescKey, StatusCodeKey};
  }

  /** Arguments always win: a fully specified error reports what it was given, whatever its class. */
  lemma OverridesWin(k: ErrorClass, status: int, code: string, desc: string, errors: seq<string>, original: Option<string>)
    ensures AsDict(Construct(k, Some(status), Some(code), Some(desc), Some(errors), original)).Success?
    ensures var d := AsDict(Construct(k, Some(status), Some(code), Some(desc), Some(errors), original)).value;
            d[StatusCodeKey] == Int(status) && d[ErrorCodeKey] == Str(code) && d[ErrorDescKey] == Str(desc)
            && (ErrorsKey in d <==> |errors| > 0)
  {
  }

  /** `ClientError` has no defaults, so its dictionary exists only when all three fields were supplied. */
  lemma ClientErrorNeedsAllFields(status: Option<int>, code: Option<string>, desc: Option<string>,
                                  errors: Option<seq<string>>, original: Option<string>)
    ensures AsDict(Construct(ClientError, status, code, desc, errors, original)).Success?
        <==> status.Some? && code.Some? && desc.Some?
    ensures code.None? ==> AsDict(Construct(ClientError, status, code, desc, errors, original)) == Failure(ErrorCodeKey)
  {
    DefaultsTable();
  }
}
