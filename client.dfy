/**
 * The browser form's side: phone-number normalisation, the checks each action runs
 * before it calls the relay, and the relay path and JSON body it posts. The values of
 * the form's input fields are parameters; what the form shows is left out.
 */
module Client {
  import opened Wrappers
  import opened Text
  import Json

  /** Path prefix of the relay endpoint. */
  const ProxyBase: string := "/api/green-api"

  /** The two trimmed credential fields. */
  datatype Credentials = Credentials(idInstance: string, apiTokenInstance: string)

  /** The POST the form sends to the relay at `path`, with the JSON body
      `{httpMethod, data}`. */
  datatype ProxyCall = ProxyCall(path: string, httpMethod: string, data: Json.Value)

  /** Why an action stopped before calling the relay. */
  datatype ClientError = MissingFields | InvalidPhone | InvalidFileUrl | MissingCredentials

  /** What an action does: report an error, or post a call to the relay. */
  datatype Action = Alert(error: ClientError) | Send(call: ProxyCall)

  /** `getInstanceData`: both fields trimmed; no credentials if either is then empty. */
  function GetInstanceData(idField: string, tokenField: string): (r: Option<Credentials>)
    ensures r.Some? ==> r.value == Credentials(Trim(idField), Trim(tokenField))
    ensures r.Some? ==> r.value.idInstance != "" && r.value.apiTokenInstance != ""
    ensures r.Some? ==> Trim(r.value.idInstance) == r.value.idInstance
                        && Trim(r.value.apiTokenInstance) == r.value.apiTokenInstance
  {
    var id := Trim(idField);
    var token := Trim(tokenField);
    TrimIdempotent(idField);
    TrimIdempotent(tokenField);
    if id == "" || token == "" then None else Some(Credentials(id, token))
  }

  /** The relay path `/api/green-api/<id>/<endpoint>/<token>`. */
  function ProxyPath(c: Credentials, endpoint: string): (path: string)
    ensures '/' !in c.idInstance && '/' !in endpoint && '/' !in c.apiTokenInstance ==>
      Split(path, '/') == ["", "api", "green-api", c.idInstance, endpoint, c.apiTokenInstance]
  {
    var path := ProxyBase + "/" + c.idInstance + "/" + endpoint + "/" + c.apiTokenInstance;
    assert '/' !in c.idInstance && '/' !in endpoint && '/' !in c.apiTokenInstance ==>
      Split(path, '/') == ["", "api", "green-api", c.idInstance, endpoint, c.apiTokenInstance]
    by {
      if '/' !in c.idInstance && '/' !in endpoint && '/' !in c.apiTokenInstance {
        var parts := ["", "api", "green-api", c.idInstance, endpoint, c.apiTokenInstance];
        JoinOfSix("", "api", "green-api", c.idInstance, endpoint, c.apiTokenInstance, '/');
        assert "" + "/" + "api" + "/" + "green-api" == ProxyBase;
        assert Join(parts, '/') == path;
        assert '/' !in "api" && '/' !in "green-api";
        SplitJoin(parts, '/');
      }
    }
    path
  }

  /** `makeApiRequest`: nothing is sent without credentials. */
  function MakeApiRequest(idField: string, tokenField: string, endpoint: string, httpMethod: string,
                          requestData: Json.Value): (r: Option<ProxyCall>)
    ensures r.Some? <==> GetInstanceData(idField, tokenField).Some?
    ensures r.Some? ==> r.value.httpMethod == httpMethod && r.value.data == requestData
    ensures r.Some? ==> r.value.path == ProxyPath(GetInstanceData(idField, tokenField).value, endpoint)
  {
    match GetInstanceData(idField, tokenField)
    case None => None
    case Some(c) => Some(ProxyCall(ProxyPath(c, endpoint), httpMethod, requestData))
  }

  /** An action built on `makeApiRequest`: a missing credential is reported, else the call is sent. */
  function Request(idField: string, tokenField: string, endpoint: string, httpMethod: string,
                   requestData: Json.Value): Action
  {
    match MakeApiRequest(idField, tokenField, endpoint, httpMethod, requestData)
    case None => Alert(MissingCredentials)
    case Some(call) => Send(call)
  }

  /** `getSettings`: a GET of the instance settings, with no data. */
  function GetSettings(idField: string, tokenField: string): (a: Action)
    ensures a.Alert? ==> a.error == MissingCredentials
    ensures a.Send? ==> a.call.httpMethod == "GET" && a.call.data == Json.Null
  {
    Request(idField, tokenField, "getSettings", "GET", Json.Null)
  }

  /** `getStateInstance`: a GET of the instance state, with no data. */
  function GetStateInstance(idField: string, tokenField: string): (a: Action)
    ensures a.Alert? ==> a.error == MissingCredentials
    ensures a.Send? ==> a.call.httpMethod == "GET" && a.call.data == Json.Null
  {
    Request(idField, tokenField, "getStateInstance", "GET", Json.Null)
  }

  // ---------------------------------------------------------------------------
  // phone numbers

  /** `phone.replace(/\D/g, '')`: the digits of `phone`, in order. */
  function StripNonDigits(phone: string): (r: string)
    ensures AllDigits(r) && |r| <= |phone|
    decreases |phone|
  {
    if phone == [] then []
    else (if IsDigit(phone[0]) then [phone[0]] else []) + StripNonDigits(phone[1..])
  }

  /** `formatPhoneNumber`: keep the digits, drop one leading `00`, and prefix a 10-digit
      number with the country code `1`. */
  function FormatPhoneNumber(phone: string): (r: string)
    ensures AllDigits(r) && |r| != 10
    ensures |r| <= |StripNonDigits(phone)| + 1
  {
    var cleaned := StripNonDigits(phone);
    var national := if StartsWith(cleaned, "00") then cleaned[2..] else cleaned;
    if |national| == 10 then "1" + national else national
  }

  /** `/^\d{10,15}$/.test(s)` */
  predicate IsValidPhone(s: string): (b: bool)
    ensures b ==> StripNonDigits(s) == s && s != ""
  {
    if AllDigits(s) then StripNonDigitsOfDigits(s); 10 <= |s| <= 15 else false
  }

  /** `chatId` of a phone number: `<digits>@c.us`. */
  function ChatId(phone: string): (id: string)
    ensures '@' !in phone ==> Split(id, '@') == [phone, "c.us"]
  {
    var id := phone + "@c.us";
    assert '@' !in phone ==> Split(id, '@') == [phone, "c.us"] by {
      if '@' !in phone {
        var parts := [phone, "c.us"];
        assert parts[1..] == ["c.us"];
        assert Join(parts, '@') == id;
        SplitJoin(parts, '@');
      }
    }
    id
  }

  /** The file URL starts with `http://` or `https://`. */
  predicate HasHttpScheme(url: string): (b: bool)
    ensures b ==> |url| >= 7 && url[..4] == "http"
  {
    StartsWith(url, "http://") || StartsWith(url, "https://")
  }

  // ---------------------------------------------------------------------------
  // the two send actions

  /** `sendMessage`: both fields present, then a valid phone, then the credentials. */
  function SendMessage(idField: string, tokenField: string, phoneField: string, textField: string): (a: Action)
    ensures a.Send? ==> IsValidPhone(FormatPhoneNumber(Trim(phoneField))) && Trim(textField) != ""
    ensures a.Send? ==> a.call.httpMethod == "POST"
  {
    var phone := Trim(phoneField);
    var text := Trim(textField);
    if phone == "" || text == "" then Alert(MissingFields)
    else
      var formatted := FormatPhoneNumber(phone);
      if !IsValidPhone(formatted) then Alert(InvalidPhone)
      else
        Request(idField, tokenField, "sendMessage", "POST",
          Json.Object([("chatId", Json.Str(ChatId(formatted))), ("message", Json.Str(text))]))
  }

  /** `sendFileByUrl`: both fields present, then a valid phone, then an http(s) URL, then
      the credentials. */
  function SendFileByUrl(idField: string, tokenField: string, phoneField: string, urlField: string): (a: Action)
    ensures a.Send? ==> IsValidPhone(FormatPhoneNumber(Trim(phoneField))) && HasHttpScheme(Trim(urlField))
    ensures a.Send? ==> a.call.httpMethod == "POST"
  {
    var phone := Trim(phoneField);
    var url := Trim(urlField);
    if phone == "" || url == "" then Alert(MissingFields)
    else
      var formatted := FormatPhoneNumber(phone);
      if !IsValidPhone(formatted) then Alert(InvalidPhone)
      else if !HasHttpScheme(url) then Alert(InvalidFileUrl)
      else
        Request(idField, tokenField, "sendFileByUrl", "POST",
          Json.Object([("chatId", Json.Str(ChatId(formatted))), ("urlFile", Json.Str(url)),
                       ("fileName", Json.Str("file.png"))]))
  }

  // ---------------------------------------------------------------------------
  // properties

  /** Stripping works character by character and keeps the order: the digits of a
      concatenation are the digits of each part, one after the other. */
  lemma {:induction false} StripNonDigitsAppend(a: string, b: string)
    ensures StripNonDigits(a + b) == StripNonDigits(a) + StripNonDigits(b)
    decreases |a|
  {
    if a == [] {
      assert a + b == b;
    } else {
      assert (a + b)[1..] == a[1..] + b;
      StripNonDigitsAppend(a[1..], b);
    }
  }

  /** A single character survives exactly when it is a digit. */
  lemma StripNonDigitsChar(c: char)
    ensures StripNonDigits([c]) == (if IsDigit(c) then [c] else [])
  {
    assert [c][1..] == [];
  }

  /** A string of digits is left as it is. */
  lemma {:induction false} StripNonDigitsOfDigits(s: string)
    requires AllDigits(s)
    ensures StripNonDigits(s) == s
    decreases |s|
  {
    if s != [] {
      StripNonDigitsOfDigits(s[1..]);
      assert s == [s[0]] + s[1..];
    }
  }

  /** Every digit of the input is kept, as often as it occurs; nothing else is. */
  lemma {:induction false} StripNonDigitsCounts(s: string, c: char)
    ensures multiset(StripNonDigits(s))[c] == if IsDigit(c) then multiset(s)[c] else 0
    decreases |s|
  {
    if s != [] {
      StripNonDigitsCounts(s[1..], c);
      assert s == [s[0]] + s[1..];
      assert multiset(s) == multiset([s[0]]) + multiset(s[1..]);
    } else {
      assert multiset(StripNonDigits(s)) == multiset{};
    }
  }

  /** A leading `00` is dropped once, and only once: what follows it, including any further
      zeros, is the tail of the result. */
  lemma LeadingDoubleZeroDroppedOnce(phone: string)
    requires StartsWith(StripNonDigits(phone), "00")
    ensures var cleaned, r := StripNonDigits(phone), FormatPhoneNumber(phone);
      && |r| >= |cleaned| - 2
      && r[|r| - (|cleaned| - 2)..] == cleaned[2..]
      && (|r| == |cleaned| - 2 <==> |cleaned| != 12)
      && (|cleaned| == 12 ==> r == "1" + cleaned[2..] && |r| == 11)
      && (|cleaned| != 12 ==> r == cleaned[2..])
  {
  }

  /** Without a leading `00`, the digits are kept as they are, prefixed with `1` exactly
      when there are ten of them. */
  lemma CountryCodeForTenDigits(phone: string)
    requires !StartsWith(StripNonDigits(phone), "00")
    ensures var cleaned, r := StripNonDigits(phone), FormatPhoneNumber(phone);
      && (|cleaned| == 10 ==> r == "1" + cleaned && |r| == 11)
      && (|cleaned| != 10 ==> r == cleaned)
  {
  }

  /** The `\d{10,15}` test lets through formatted numbers of 11 to 15 digits, and no others:
      ten is unreachable after formatting. */
  lemma AcceptedFormattedLengths(phone: string)
    ensures IsValidPhone(FormatPhoneNumber(phone)) <==> 11 <= |FormatPhoneNumber(phone)| <= 15
  {
  }

  /** A ten-digit number typed without a country code is accepted once formatted. */
  lemma TenDigitNumberAccepted(phone: string)
    requires |StripNonDigits(phone)| == 10 && !StartsWith(StripNonDigits(phone), "00")
    ensures IsValidPhone(FormatPhoneNumber(phone))
  {
  }

  /** A ten-digit national number gets the country code. The example is passed in as a
      parameter fixed by the precondition rather than written into the postcondition: with the
      literal in the postcondition the verifier unrolls `StripNonDigits` over every character
      of it, which is far more costly than the proof below. */
  lemma FormatTenDigits(phone: string)
    requires phone == "2345678901"
    ensures FormatPhoneNumber(phone) == "1" + phone
  {
    StripNonDigitsOfDigits(phone);
    assert !StartsWith(phone, "00") by {
      assert phone[0] == '2';
    }
  }

  /** Digits appended to a string are all kept, after the digits already there. */
  lemma DigitsAppended(prefix: string, digits: string)
    requires AllDigits(digits)
    ensures StripNonDigits(prefix + digits) == StripNonDigits(prefix) + digits
  {
    StripNonDigitsAppend(prefix, digits);
    StripNonDigitsOfDigits(digits);
  }

  /** A character other than a digit appended to a string is dropped. */
  lemma NonDigitAppended(prefix: string, c: char)
    requires !IsDigit(c)
    ensures StripNonDigits(prefix + [c]) == StripNonDigits(prefix)
  {
    StripNonDigitsAppend(prefix, [c]);
    StripNonDigitsChar(c);
  }

  /** Two characters other than digits appended to a string are dropped. */
  lemma NonDigitPairAppended(prefix: string, c: char, d: char)
    requires !IsDigit(c) && !IsDigit(d)
    ensures StripNonDigits(prefix + [c, d]) == StripNonDigits(prefix)
  {
    StripNonDigitsAppend(prefix, [c, d]);
    StripNonDigitsAppend([c], [d]);
    StripNonDigitsChar(c);
    StripNonDigitsChar(d);
    assert [c] + [d] == [c, d];
  }

  /** The digits of a number written as `+C (AAA) EEE-LLLL` are `CAAAEEELLLL`. */
  lemma StripPunctuated(cc: string, area: string, exchange: string, line: string)
    requires AllDigits(cc) && AllDigits(area) && AllDigits(exchange) && AllDigits(line)
    ensures StripNonDigits("+" + cc + " (" + area + ") " + exchange + "-" + line) == cc + area + exchange + line
  {
    var p1 := "+" + cc;
    assert StripNonDigits(p1) == cc by {
      StripNonDigitsChar('+');
      DigitsAppended("+", cc);
    }
    var p3 := p1 + " (" + area;
    assert StripNonDigits(p3) == cc + area by {
      NonDigitPairAppended(p1, ' ', '(');
      DigitsAppended(p1 + " (", area);
    }
    var p5 := p3 + ") " + exchange;
    assert StripNonDigits(p5) == cc + area + exchange by {
      NonDigitPairAppended(p3, ')', ' ');
      DigitsAppended(p3 + ") ", exchange);
    }
    NonDigitAppended(p5, '-');
    DigitsAppended(p5 + "-", line);
  }

  /** Punctuation and the `+` sign go; an 11-digit number is kept as it is:
      `+1 (234) 567-8901` becomes `12345678901`. The digit groups are parameters fixed by the
      precondition, as in `FormatTenDigits`, so the proof goes through `StripPunctuated`. */
  lemma FormatPunctuated(cc: string, area: string, exchange: string, line: string)
    requires cc == "1" && area == "234" && exchange == "567" && line == "8901"
    ensures FormatPhoneNumber("+" + cc + " (" + area + ") " + exchange + "-" + line) == cc + area + exchange + line
  {
    StripPunctuated(cc, area, exchange, line);
    var cleaned := cc + area + exchange + line;
    assert |cleaned| == 11 && cleaned[0] == '1';
  }

  /** The international prefix `00` is dropped. As in `FormatTenDigits`, the example is a
      parameter fixed by the precondition, which keeps the proof cheap. */
  lemma FormatInternationalPrefix(phone: string)
    requires phone == "0012345678901"
    ensures FormatPhoneNumber(phone) == "12345678901"
  {
    StripNonDigitsOfDigits(phone);
    assert phone[..2] == "00";
    assert phone[2..] == "12345678901";
  }

  /** Only the first `00` is dropped. The example is fixed by the precondition, as in
      `FormatTenDigits`. */
  lemma FormatDoubleZeroOnce(phone: string)
    requires phone == "0000123"
    ensures FormatPhoneNumber(phone) == "00123"
  {
    StripNonDigitsOfDigits(phone);
    assert phone[..2] == "00";
    assert phone[2..] == "00123";
  }

  /** The chat id splits at `@` into the phone number and the `c.us` suffix. */
  lemma ChatIdSplits(phone: string)
    requires AllDigits(phone)
    ensures Split(ChatId(phone), '@') == [phone, "c.us"]
  {
    forall i | 0 <= i < |phone| ensures phone[i] != '@' {
      assert IsDigit(phone[i]);
    }
  }

  /** Credentials are produced exactly when each field holds something other than
      whitespace, and they are the trimmed fields. */
  lemma InstanceDataIff(idField: string, tokenField: string)
    ensures GetInstanceData(idField, tokenField).Some? <==>
      (exists k :: 0 <= k < |idField| && !IsWhitespace(idField[k]))
      && (exists k :: 0 <= k < |tokenField| && !IsWhitespace(tokenField[k]))
    ensures GetInstanceData(idField, tokenField).Some? ==>
      GetInstanceData(idField, tokenField).value == Credentials(Trim(idField), Trim(tokenField))
  {
    TrimEmptyIff(idField);
    TrimEmptyIff(tokenField);
  }

  /** `sendMessage` posts exactly when the phone and text are present, the formatted phone is
      accepted and the credentials are present; the first check to fail names the error. The
      call goes to the `sendMessage` endpoint as a POST, with the chat id of the formatted
      phone and the trimmed text. */
  lemma SendMessageChain(idField: string, tokenField: string, phoneField: string, textField: string)
    ensures var a := SendMessage(idField, tokenField, phoneField, textField);
      var phone := FormatPhoneNumber(Trim(phoneField));
      && (Trim(phoneField) == "" || Trim(textField) == "" <==> a == Alert(MissingFields))
      && (a == Alert(InvalidPhone) <==>
            Trim(phoneField) != "" && Trim(textField) != "" && !(11 <= |phone| <= 15))
      && (a == Alert(MissingCredentials) <==>
            Trim(phoneField) != "" && Trim(textField) != "" && 11 <= |phone| <= 15
            && GetInstanceData(idField, tokenField).None?)
      && (a.Send? <==>
            Trim(phoneField) != "" && Trim(textField) != "" && 11 <= |phone| <= 15
            && GetInstanceData(idField, tokenField).Some?)
      && (a.Send? ==>
            var c := GetInstanceData(idField, tokenField).value;
            a.call == ProxyCall(ProxyPath(c, "sendMessage"), "POST",
              Json.Object([("chatId", Json.Str(phone + "@c.us")), ("message", Json.Str(Trim(textField)))])))
  {
    AcceptedFormattedLengths(Trim(phoneField));
  }

  /** `sendFileByUrl` posts exactly when the phone and URL are present, the formatted phone is
      accepted, the URL is http or https and the credentials are present, checked in that
      order. */
  lemma SendFileByUrlChain(idField: string, tokenField: string, phoneField: string, urlField: string)
    ensures var a := SendFileByUrl(idField, tokenField, phoneField, urlField);
      var phone := FormatPhoneNumber(Trim(phoneField));
      var url := Trim(urlField);
      && (Trim(phoneField) == "" || url == "" <==> a == Alert(MissingFields))
      && (a == Alert(InvalidPhone) <==> Trim(phoneField) != "" && url != "" && !(11 <= |phone| <= 15))
      && (a == Alert(InvalidFileUrl) <==>
            Trim(phoneField) != "" && url != "" && 11 <= |phone| <= 15 && !HasHttpScheme(url))
      && (a.Send? <==>
            Trim(phoneField) != "" && url != "" && 11 <= |phone| <= 15 && HasHttpScheme(url)
            && GetInstanceData(idField, tokenField).Some?)
      && (a.Send? ==>
            a.call.path == ProxyPath(GetInstanceData(idField, tokenField).value, "sendFileByUrl")
            && a.call.httpMethod == "POST"
            && a.call.data == Json.Object([("chatId", Json.Str(phone + "@c.us")), ("urlFile", Json.Str(url)),
                                           ("fileName", Json.Str("file.png"))]))
  {
    AcceptedFormattedLengths(Trim(phoneField));
  }

  /** The two read-only actions send a GET with `null` data once the credentials are present. */
  lemma ReadActions(idField: string, tokenField: string)
    ensures GetSettings(idField, tokenField).Send? <==> GetInstanceData(idField, tokenField).Some?
    ensures GetStateInstance(idField, tokenField).Send? <==> GetInstanceData(idField, tokenField).Some?
    ensures GetSettings(idField, tokenField).Send? ==>
      GetSettings(idField, tokenField).call
        == ProxyCall(ProxyPath(GetInstanceData(idField, tokenField).value, "getSettings"), "GET", Json.Null)
    ensures GetStateInstance(idField, tokenField).Send? ==>
      GetStateInstance(idField, tokenField).call
        == ProxyCall(ProxyPath(GetInstanceData(idField, tokenField).value, "getStateInstance"), "GET", Json.Null)
  {
  }

  /** Only `http://` and `https://` URLs pass, whatever follows the scheme; the check is
      case-sensitive, so `HTTPS://` fails, and so does any other scheme. */
  lemma HttpSchemes(rest: string)
    ensures HasHttpScheme("http://" + rest) && HasHttpScheme("https://" + rest)
    ensures !HasHttpScheme("ftp://" + rest) && !HasHttpScheme("HTTPS://" + rest)
  {
    assert ("http://" + rest)[..7] == "http://";
    assert ("https://" + rest)[..8] == "https://";
    assert ("ftp://" + rest)[0] == 'f';
    assert ("HTTPS://" + rest)[0] == 'H';
  }
}
