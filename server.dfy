/**
 * The `POST /login` handler: it validates the body with early returns,
 * upserts the record keyed by the trimmed phone number, and maps the
 * outcome to a status code and a JSON reply that echoes only the phone
 * number.
 */
module Server {
  import opened Wrappers
  import opened Js
  import opened FormData

  /** The parsed JSON body. A field the body does not have is `Undefined`.
      `pin` may be sent; the handler never reads it. */
  datatype Request = Request(phoneNumber: JsValue, password: JsValue, pin: JsValue)

  /** The `data` object of a successful reply. */
  datatype Data = Data(phoneNumber: string)

  /** The five fixed messages the handler can send. */
  datatype Message =
    | RequiredMessage
    | InvalidPhoneMessage
    | SuccessMessage
    | WriteErrorMessage
    | InternalErrorMessage

  /** The text each message is sent as; every reply carries a non-empty
      message. */
  function Text(msg: Message): (t: string)
    ensures t != []
  {
    match msg
    case RequiredMessage => "Phone number and password are required"
    case InvalidPhoneMessage => "Please enter a valid phone number"
    case SuccessMessage => "Login successful"
    case WriteErrorMessage => "Error processing request. Please try again later."
    case InternalErrorMessage => "Internal server error. Please try again later."
  }

  /** The five texts are pairwise different, so the message alone tells a
      client which outcome it got. */
  lemma TextsDistinct(a: Message, b: Message)
    ensures Text(a) == Text(b) <==> a == b
  {
  }

  /** The JSON reply body `{ success, message: Text(message), data? }`. */
  datatype Body = Body(success: bool, message: Message, data: Option<Data>)

  datatype Response = Response(status: int, body: Body)

  /** The shortest phone number, in UTF-16 code units after trimming, that
      the handler accepts. */
  const MinPhoneLength := 10

  function Failure(status: int, message: Message): Response
  {
    Response(status, Body(false, message, None))
  }

  /** What the synchronous part of the handler decides: answer at once, or
      write the record under `key` with `password`. */
  datatype Decision = Answer(response: Response) | Write(key: string, password: JsValue)

  /** The validation with its early returns. Calling `trim` on a phone number
      that is not a string throws a TypeError, which the handler's `catch`
      turns into a 500. A write goes ahead only with a present password and
      a trimmed phone number of at least ten code units; anything else is
      answered with a failure and no data. */
  function Validate(req: Request): (d: Decision)
    ensures d.Write? ==>
      && req.phoneNumber.Str?
      && d.key == Trim(req.phoneNumber.s)
      && Trimmed(d.key) && Utf16Length(d.key) >= MinPhoneLength
      && d.password == req.password && Truthy(d.password)
    ensures d.Answer? ==>
      && (d.response.status == 400 || d.response.status == 500)
      && !d.response.body.success && d.response.body.data == None
  {
    if !Truthy(req.phoneNumber) || !Truthy(req.password) then
      Answer(Failure(400, RequiredMessage))
    else if !req.phoneNumber.Str? then
      Answer(Failure(500, InternalErrorMessage))
    else if Utf16Length(Trim(req.phoneNumber.s)) < MinPhoneLength then
      Answer(Failure(400, InvalidPhoneMessage))
    else
      Write(Trim(req.phoneNumber.s), req.password)
  }

  /** The promise chain after the write: the updated document becomes a 200
      that carries its phone number and nothing else; a rejection becomes a
      500 whose message is fixed, whatever the error said. */
  function Reply(result: WriteResult): (r: Response)
    ensures r.status == 200 <==> result.Written?
    ensures r.body.success <==> result.Written?
    ensures result.Written? ==> r.body.data == Some(Data(result.user.phoneNumber))
    ensures result.Rejected? ==> r == Failure(500, WriteErrorMessage)
  {
    match result
    case Written(user) => Response(200, Body(true, SuccessMessage, Some(Data(user.phoneNumber))))
    case Rejected(_) => Failure(500, WriteErrorMessage)
  }

  /** A reply together with the collection it leaves behind. */
  datatype Step = Step(response: Response, records: map<string, Record>)

  /** One request against collection `m`, with the store's verdict `fault`.
      Either the record is upserted and the reply is a 200, or nothing is
      written at all; the collection stays keyed by phone number and keeps
      the schema's constraints. */
  function Handle(m: map<string, Record>, req: Request, fault: Option<string>): (s: Step)
    ensures s.response.status == 200 ==>
      && Validate(req).Write? && fault.None?
      && s.records == Upsert(m, Validate(req).key, req.password)
    ensures s.response.status != 200 ==> s.records == m
    ensures Keyed(m) ==> Keyed(s.records)
    ensures AllSchemaValid(m) ==> AllSchemaValid(s.records)
  {
    match Validate(req)
    case Answer(r) => Step(r, m)
    case Write(key, password) =>
      if fault.None? then
        UpsertKeepsInvariants(m, key, password);
        var m' := Upsert(m, key, password);
        Step(Reply(Written(m'[key])), m')
      else
        Step(Reply(Rejected(fault.value)), m)
  }

  /** The handler, run against the store in place. */
  method Login(store: Store, req: Request, fault: Option<string>) returns (response: Response)
    requires store.Valid()
    modifies store
    ensures store.Valid()
    ensures response == Handle(old(store.records), req, fault).response
    ensures store.records == Handle(old(store.records), req, fault).records
  {
    match Validate(req)
    case Answer(r) =>
      response := r;
    case Write(key, password) =>
      var result := store.FindOneAndUpdate(key, password, fault);
      response := Reply(result);
  }

  /** A missing or empty phone number or password is a 400 and writes nothing. */
  lemma MissingFieldRejected(m: map<string, Record>, req: Request, fault: Option<string>)
    requires !Truthy(req.phoneNumber) || !Truthy(req.password)
    ensures Handle(m, req, fault) == Step(Failure(400, RequiredMessage), m)
  {
  }

  /** A phone number that is not a string makes `trim` throw: a 500 with the
      generic message, and nothing written. */
  lemma NonStringPhoneRejected(m: map<string, Record>, req: Request, fault: Option<string>)
    requires Truthy(req.phoneNumber) && Truthy(req.password) && !req.phoneNumber.Str?
    ensures Handle(m, req, fault) == Step(Failure(500, InternalErrorMessage), m)
  {
  }

  /** A phone number shorter than ten code units once trimmed is a 400 and
      writes nothing. */
  lemma ShortPhoneRejected(m: map<string, Record>, req: Request, fault: Option<string>)
    requires Truthy(req.password) && req.phoneNumber.Str? && req.phoneNumber.s != ""
    requires Utf16Length(Trim(req.phoneNumber.s)) < MinPhoneLength
    ensures Handle(m, req, fault) == Step(Failure(400, InvalidPhoneMessage), m)
  {
  }

  /** A phone number made of whitespace only passes the presence check but
      trims to nothing, so it is rejected as invalid. */
  lemma WhitespacePhoneRejected(m: map<string, Record>, req: Request, fault: Option<string>)
    requires Truthy(req.password) && req.phoneNumber.Str? && req.phoneNumber.s != ""
    requires AllWhitespace(req.phoneNumber.s)
    ensures Handle(m, req, fault) == Step(Failure(400, InvalidPhoneMessage), m)
  {
    TrimOfWhitespace(req.phoneNumber.s);
  }

  /** A valid request that the store accepts: a 200 whose data is the trimmed
      phone number, and exactly one record for that number, carrying the
      password just supplied. */
  lemma AcceptedLoginUpserts(m: map<string, Record>, req: Request)
    requires Keyed(m)
    requires Truthy(req.password) && req.phoneNumber.Str?
    requires Utf16Length(Trim(req.phoneNumber.s)) >= MinPhoneLength
    ensures var key := Trim(req.phoneNumber.s);
      var s := Handle(m, req, None);
      && s.response == Response(200, Body(true, SuccessMessage, Some(Data(key))))
      && RecordsWithPhone(s.records, key) == {key}
      && s.records[key].password == req.password
  {
    UpsertLeavesOneRecord(m, Trim(req.phoneNumber.s), req.password);
  }

  /** A valid request that the store rejects: a 500 with the fixed message,
      the same whatever the error's detail, and nothing written. */
  lemma RejectedWriteAnswers500(m: map<string, Record>, req: Request, detail: string)
    requires Validate(req).Write?
    ensures Handle(m, req, Some(detail)) == Step(Failure(500, WriteErrorMessage), m)
  {
  }

  /** Sending the same accepted request again leaves the collection and the
      reply as they were after the first. */
  lemma LoginIdempotent(m: map<string, Record>, req: Request)
    ensures var s := Handle(m, req, None);
      Handle(s.records, req, None) == s
  {
    if Validate(req).Write? {
      UpsertIdempotent(m, Validate(req).key, req.password);
    }
  }

  /** Two accepted logins whose phone numbers trim to the same key leave
      what the second alone would leave: the latest password overwrites the
      earlier one. */
  lemma LatestPasswordWins(m: map<string, Record>, first: Request, second: Request)
    requires Validate(first).Write? && Validate(second).Write?
    requires Validate(first).key == Validate(second).key
    ensures Handle(Handle(m, first, None).records, second, None) == Handle(m, second, None)
  {
    UpsertLastWins(m, Validate(first).key, first.password, second.password);
  }

  /** Phone numbers that differ only in surrounding whitespace are the same
      request: same reply, same record. */
  lemma PaddingIrrelevant(m: map<string, Record>, req: Request, pre: string, phone: string, post: string, fault: Option<string>)
    requires AllWhitespace(pre) && AllWhitespace(post) && phone != ""
    ensures Handle(m, req.(phoneNumber := Str(pre + phone + post)), fault)
         == Handle(m, req.(phoneNumber := Str(phone)), fault)
  {
    TrimIgnoresPadding(pre, phone, post);
  }

  /** A login writes at most the record under its own trimmed phone number:
      every other record is left as it was, and no other key appears. */
  lemma LoginTouchesOnlyItsKey(m: map<string, Record>, req: Request, fault: Option<string>, k: string)
    requires !req.phoneNumber.Str? || k != Trim(req.phoneNumber.s)
    ensures k in Handle(m, req, fault).records <==> k in m
    ensures k in m ==> Handle(m, req, fault).records[k] == m[k]
  {
  }

  /** A login never changes a stored pin, and a record it creates has none. */
  lemma PinSurvivesLogin(m: map<string, Record>, req: Request, fault: Option<string>, k: string)
    requires k in Handle(m, req, fault).records
    ensures k in m ==> Handle(m, req, fault).records[k].pin == m[k].pin
    ensures k !in m ==> Handle(m, req, fault).records[k].pin == None
  {
  }

  /** The pin in the body is never read: it changes neither the reply nor
      the collection. */
  lemma PinIgnored(m: map<string, Record>, req: Request, pin: JsValue, fault: Option<string>)
    ensures Handle(m, req.(pin := pin), fault) == Handle(m, req, fault)
  {
  }

  /** The reply depends on nothing secret: two requests with the same phone
      number, whose passwords are both present or both missing, against any
      two collections, get the same reply when the store's verdicts agree on
      success, whatever the passwords, the pins, the stored records or the
      error's detail. */
  lemma ReplyHidesSecrets(m1: map<string, Record>, m2: map<string, Record>, req1: Request, req2: Request,
                          fault1: Option<string>, fault2: Option<string>)
    requires req1.phoneNumber == req2.phoneNumber
    requires Truthy(req1.password) == Truthy(req2.password)
    requires fault1.None? == fault2.None?
    ensures Handle(m1, req1, fault1).response == Handle(m2, req2, fault2).response
  {
  }

  /** An example session: a first login creates the record, a second one with
      another password overwrites the password and keeps everything else,
      and a three-digit phone number is refused before the store is touched. */
  lemma ExampleSession()
    ensures var first := Request(Str("5551234567"), Str("abc123"), Undefined);
      var second := Request(Str("5551234567"), Str("xyz999"), Undefined);
      var s1 := Handle(map[], first, None);
      var s2 := Handle(s1.records, second, None);
      && s1.response == Response(200, Body(true, SuccessMessage, Some(Data("5551234567"))))
      && s2.records == map["5551234567" := Record("5551234567", Str("xyz999"), None)]
      && Handle(s2.records, Request(Str("123"), Str("abc123"), Undefined), None)
         == Step(Failure(400, InvalidPhoneMessage), s2.records)
  {
    var phone := "5551234567";
    var first := Request(Str(phone), Str("abc123"), Undefined);
    var second := Request(Str(phone), Str("xyz999"), Undefined);
    ExamplePhoneTrimmed();
    AcceptedLoginUpserts(map[], first);
    AcceptedLoginUpserts(map[], second);
    LatestPasswordWins(map[], first, second);
    var s2 := Handle(map[], second, None);
    assert s2.records == Upsert(map[], phone, Str("xyz999"));
    ShortExamplePhoneTrimmed();
    ShortPhoneRejected(s2.records, Request(Str("123"), Str("abc123"), Undefined), None);
  }

  lemma ExamplePhoneTrimmed()
    ensures Trim("5551234567") == "5551234567"
  {
    assert SkipLeading("5551234567", 0) == 0;
    assert SkipTrailing("5551234567", 10) == 10;
  }

  lemma ShortExamplePhoneTrimmed()
    ensures Trim("123") == "123"
  {
    assert SkipLeading("123", 0) == 0;
    assert SkipTrailing("123", 3) == 3;
  }
}
