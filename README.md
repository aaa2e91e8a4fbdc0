# solar-ev-charger: a Dafny model of the token, telemetry, charger and admin logic

solar-ev-charger steers a go-e wallbox from the surplus of a Viessmann
photovoltaic installation. This project models the decision logic of that
program and proves what it promises. Effects become explicit state and
parameters.

- **Viessmann client** (`viessmann.dfy`, module `Viessmann`). It acquires
  tokens cache-first. A cached token in `token.json` is reused only while
  its JWT `exp` claim (section 4.1.4 of RFC 7519) lies more than 60 s
  ahead. Otherwise the client runs one of two flows:
  - the PKCE flow. The authorization code is read from the redirect's
    query (section 4.1.2 of RFC 6749) and exchanged together with the
    `code_verifier` (section 4.5 of RFC 7636);
  - the implicit flow. The `access_token` is read from the redirect's
    fragment (section 4.2.2 of RFC 6749).

  A token obtained from a flow is saved. The telemetry request is then
  reduced to a `PhotovoltaicData` snapshot.
- The client is a `class`:
  - the content of `token.json` is a field;
  - the PKCE verifier and challenge are constant fields fixed by the
    constructor;
  - every HTTP request is appended to a ghost `Requests` log;
  - the reply to each request is a parameter of the method that sends it.
- **Helper modules used by the client:**
  - `OAuth` (`oauth.dfy`): the request parameters and what the client takes
    out of replies.
  - `Pkce`, `Base64Url` and `Utf8`: verifier and challenge generation. The
    URL-safe alphabet follows section 5 of RFC 4648, and the S256 method
    section 4.2 of RFC 7636.
  - `IoT`: the feature-response records and the snapshot record.
  - `Config`: the configuration records.
- **Charger client** (`charger.dfy`, module `Charger`):
  - the three-rule readiness gate over the status map;
  - the diff-before-write setter, which sends only the fields whose
    `str()` differs from the status;
  - `disable`, which is that setter with `frc=1`.
- **Admin web service** (`webservice.dfy`, module `Webservice`):
  - the log-name normalisation of `read_log` (`today`, `yesterday`, the
    `.log` suffix), over proleptic Gregorian dates with the day-number
    arithmetic of Python's `datetime`;
  - the update of the `enabled` key in `config.json` by `update_enabled`.
    The file is a field of `ConfigStore`.
- `JsonValue` gives JSON values Python's semantics where the code relies on
  them:
  - truthiness;
  - `==` against an int literal (a bool compares as 0 or 1);
  - `str()`;
  - `dict.get`;
  - `d[k] = v`.

Foreign code enters as parameters:
- `jwt.decode` is a function from the token to optional claims;
- `hashlib.sha256` is a function to 32-byte digests;
- `os.urandom(40)` is a 40-byte sequence;
- `time.time()` is a real number;
- `datetime.now()` is a date.

`script/viessmann.py` is byte-identical to `viessmann.py`. It is modelled
once. The table cites the one file or the other, and every line number
holds for both.

In three places the code does something its declarations do not say. The
model follows the code.
- `PhotovoltaicData` declares `_state_of_charge: int`, yet a missing
  `ess.stateOfCharge` feature stores None there. It is not an error.
- `get_status` asks the charger for the fields
  `amp,psm,car,frc,nrg,fup,frm,spl3`.
- `is_token_valid` is declared `-> bool`, but it returns the value of
  `expiration and ...`, which is None or 0 when `exp` is missing or zero.
  The model returns the bool it stands for.

`charger.py` imports `ChargerConfig` from `custom/config.py`, which does not
define it. The model gives the charger a configuration record holding the
one field the charger reads, `base_url`.

The getters of `PhotovoltaicData` (`solar_power`, `battery_power`,
`state_of_charge`, `grid_exchange`, `household`) are the datatype's
destructors, so each returns the field it was built with. `household` is
stored as given, never recomputed.

## Model

| member | source | states |
|---|---|---|
| JsonValue.Truthy | charger.py:14 | the falsy values are exactly None, False, 0, "", [] and {} |
| JsonValue.EqualsInt | charger.py:19 | `v == n` holds for the int n, for True when n is 1, for False when n is 0, and for nothing else |
| JsonValue.Str | charger.py:49 | `str(v)` is "None" exactly for None and for the string "None" |
| JsonValue.IntToDecimal | charger.py:49 | `str(i)` is non-empty and starts with `-` exactly for a negative int, with a digit otherwise |
| JsonValue.Get | charger.py:13 | `d.get(k)` is None exactly when `k` is not a key; otherwise it is a value stored under `k` |
| JsonValue.GetFindsFirst | charger.py:13 | the value returned is the one of the first entry carrying the key |
| JsonValue.IntToDecimalInjective | charger.py:49 | `str(a) == str(b)` for two ints holds exactly when `a == b` |
| JsonValue.NatToDecimalInjective | charger.py:49 | different naturals have different decimal forms |
| JsonValue.StrIsOne | charger.py:45 | the only values whose `str()` is "1" are the int 1 and the string "1" (a `True` is not) |
| JsonValue.Set | webservice.py:62 | after `d[k] = v`, `d.get(k)` is `v`; an existing key keeps its position and a new one is appended |
| JsonValue.SetKeepsOtherKeys | webservice.py:62 | `d[k] = v` leaves what every other key reads unchanged |
| Base64Url.Encode | viessmann.py:26 | the padded encoding of n bytes has 4·ceil(n/3) characters |
| Base64Url.StripPadding | viessmann.py:26 | `rstrip("=")` returns a prefix with no trailing `=`, and everything removed is `=` |
| Base64Url.EncodeDataShape | viessmann.py:26 | the data characters of n bytes number (4n+2)/3, all from the URL-safe alphabet |
| Base64Url.UnpaddedIsData | viessmann.py:26 | stripping `=` from the padded encoding leaves exactly the data characters |
| Base64Url.UnpaddedShape | viessmann.py:30 | the unpadded text has ceil(4n/3) characters from the URL-safe alphabet and no `=` |
| Base64Url.RoundTrip | viessmann.py:26 | decoding the unpadded text gives back the bytes: the encoding loses nothing |
| Base64Url.DataRoundTrip | viessmann.py:26 | decoding the data characters gives back the bytes, group by group |
| Utf8.AsciiEncoding | viessmann.py:29 | `verifier.encode()` of an ASCII string is its character codes |
| Pkce.CodeVerifier | viessmann.py:25-26 | the verifier of n random bytes has ceil(4n/3) characters, all from the URL-safe alphabet |
| Pkce.CodeChallenge | viessmann.py:28-30 | the challenge of any verifier has 43 characters |
| Pkce.VerifierIsWellFormed | viessmann.py:25-26 | from 40 random bytes the verifier has 54 characters, lies in RFC 7636's 43..128 unreserved characters and has no `=` |
| Pkce.VerifierKeepsRandom | viessmann.py:25-26 | two verifiers are equal exactly when their random inputs are |
| Pkce.ChallengeIsWellFormed | viessmann.py:28-30 | every challenge has 43 base64url characters and no `=` |
| Pkce.ChallengeIsS256 | viessmann.py:28-30 | the challenge of a generated verifier is BASE64URL(SHA256(ASCII(verifier))) without padding |
| IoT.Times | viessmann.py:183-185 | `n * 1000` has value n·1000 and stays an int exactly when `n` is one |
| IoT.Plus | viessmann.py:189 | `a + b` has value a+b and is an int exactly when both are |
| OAuth.FirstValue | viessmann.py:51-53 | `parse_qs(...).get(name, [None])[0]` is None exactly when no field carries a non-empty value for `name`; otherwise it is the first such value |
| OAuth.LocationUrl | viessmann.py:50-51 | a present `Location` is used as given; a missing one parses as a URL in which every lookup yields None |
| OAuth.AuthorizationCode | viessmann.py:48-56 | an error status raises; a 302 yields the first `code` of the Location query (None if absent); any other reply yields "" |
| OAuth.ImplicitAccessToken | viessmann.py:101-107 | an error status raises; a 302 yields the first `access_token` of the Location fragment (None if absent); any other reply yields "" |
| OAuth.CodeIgnoresFragment | script/viessmann.py:51-53 | the authorization code depends on the query only, never on the fragment |
| OAuth.ImplicitTokenIgnoresQuery | script/viessmann.py:104-106 | the implicit token depends on the fragment only, never on the query |
| OAuth.ExchangedToken | viessmann.py:118-120 | the exchange raises on an error status, a non-JSON body or a non-object body; otherwise it is the body's `access_token`, None when absent |
| OAuth.ParamAt | viessmann.py:33-40 | a parameter list is read at its first entry with the name |
| OAuth.PkceAuthorizeParamsCarry | viessmann.py:33-40 | the PKCE authorization request asks for `response_type=code` and carries the challenge with method S256 |
| OAuth.ImplicitAuthorizeParamsCarry | viessmann.py:88-93 | the implicit authorization request asks for `response_type=id_token token` |
| OAuth.ExchangeFormCarries | viessmann.py:111-117 | the token request carries the verifier, and carries a code exactly when there is one |
| Viessmann.LoadedContent | viessmann.py:58-67 | a parsed file is returned as it is; a missing or corrupt one reads as `{}`, an object with no keys |
| Viessmann.CachedToken | viessmann.py:58-67 | a missing or corrupt `token.json` reads as no token; JSON other than an object makes `.get` raise |
| Viessmann.SavedTokenIsCached | script/viessmann.py:83-85 | the token saved as `{"token": t}` is what the next load finds |
| Viessmann.IsTokenValid | viessmann.py:69-81 | valid exactly when the decode succeeds, `exp` is present and non-zero, and `exp > now + 60` |
| Viessmann.ValidTokenOutlivesMargin | viessmann.py:74-75 | a token judged valid stays unexpired for the next 60 s |
| Viessmann.ValidityIsMonotone | script/viessmann.py:75 | a token valid now was valid at every earlier time |
| Viessmann.Decode | viessmann.py:71 | only a string reaches `jwt.decode`; anything else fails to decode |
| Viessmann.Reusable | script/viessmann.py:125 | the cached token is reused exactly when it is a non-empty string whose decoded claims are valid |
| Viessmann.PkceRequests | viessmann.py:110-118 | the authorization request goes first; the token request follows exactly when the authorization reply did not raise, and carries the code that reply yielded |
| Viessmann.PkceToken | script/viessmann.py:109-120 | an error status on the authorization reply ends the flow with that error; otherwise the outcome is the exchange's |
| Viessmann.FlowRequests | script/viessmann.py:129-133 | one or two requests, the first an authorization request; a second is sent exactly in the PKCE flow when the authorization reply did not raise |
| Viessmann.FlowToken | viessmann.py:129-133 | an error status on the authorization reply raises in either flow; the implicit flow's token is the one read from the fragment |
| Viessmann.FlowSelection | viessmann.py:130-133 | the flow run asks for `response_type=code` exactly when `use_pkce_flow` is set, and for `id_token token` exactly when it is not |
| Viessmann.PkceBindsVerifier | viessmann.py:109-118 | the token request follows the authorization request only when that did not raise, and carries the verifier matching the S256 challenge sent and the code received |
| Viessmann.DeviceFeatures | viessmann.py:157-166 | the feature reply raises on an error status or an invalid body; otherwise it is the validated response |
| Viessmann.FeatureValue | viessmann.py:168-176 | None exactly when no entry has the name; otherwise the value of the first entry that has it |
| Viessmann.BearerHeader | viessmann.py:146 | the header is `Bearer ` followed by `str(token)`, which for a string token is the token itself |
| Viessmann.FeaturesUrl | viessmann.py:144 | the URL extends the configured base URL and ends with `/devices/0/features` |
| Viessmann.FirstMatchWins | script/viessmann.py:168-176 | entries after the first match never change the lookup |
| Viessmann.Snapshot | viessmann.py:183-197 | solar is production·1000; battery, grid and SoC are the readings; household = solar + battery + grid; a missing power reading raises TypeError, a missing SoC gives None |
| Viessmann.Client.constructor | viessmann.py:18-23 | the verifier comes from the random bytes, the challenge from the verifier, and the pair satisfies RFC 7636 |
| Viessmann.Client.GetAuthorizationCode | viessmann.py:32-56 | issues the PKCE authorization request and returns the code the reply yields |
| Viessmann.Client.LoadCachedToken | viessmann.py:58-67 | returns the stored JSON, or `{}` for a missing or corrupt file |
| Viessmann.Client.SaveToken | viessmann.py:83-85 | the token file becomes `{"token": t}` |
| Viessmann.Client.GetAccessToken | viessmann.py:87-107 | issues the implicit authorization request and returns the fragment token |
| Viessmann.Client.GetAccessTokenPkce | viessmann.py:109-120 | issues the authorization request, then the token request only if the first did not raise, and returns the exchanged token |
| Viessmann.Client.GetToken | viessmann.py:122-139 | a reusable cached token is returned with no request and no save; otherwise the flow chosen by `use_pkce_flow` runs, and its token is saved exactly when it did not raise |
| Viessmann.Client.GetDeviceFeatures | viessmann.py:141-166 | issues the feature request with the bearer token and the four-feature filter, and returns the validated reply |
| Viessmann.Client.GetPhotovoltaicData | viessmann.py:178-197 | gets the token, sends the feature request with exactly that token, and returns the snapshot; the first step that raises ends the call; `token.json` ends as `get_token` leaves it |
| Charger.ReplyBody | charger.py:35-37 | an error status raises; otherwise the body, which raises when not JSON |
| Charger.Readiness | charger.py:11-27 | a non-object status raises; an open gate returns the status unchanged |
| Charger.ReadinessCharacterised | charger.py:14-27 | the gate opens exactly when `fup` is truthy, `car != 1`, and not both `car == 4` and `frc == 0` |
| Charger.SurplusOffCloses | charger.py:14-18 | a falsy `fup` closes the gate whatever `car` and `frc` hold |
| Charger.FinishedNeedsForceOff | charger.py:23-25 | with `fup` on and `car == 4`, the gate opens exactly when `frc != 0` |
| Charger.ReadyStatusIsNonEmpty | charger.py:27 | a status that passes the gate is a non-empty map with a truthy `fup` |
| Charger.Diff | charger.py:49 | an argument is sent exactly when its `str()` differs from that of `status.get(k)`; the result is a subsequence of `kwargs`, so their order is kept and nothing is added |
| Charger.DiffConcat | charger.py:49 | the diff of concatenated arguments is the concatenation of their diffs: each argument is kept or dropped on its own, in `kwargs` order |
| Charger.DiffOfOne | charger.py:49 | a single argument is sent exactly when it differs |
| Charger.DiffEmpty | charger.py:51-53 | nothing is sent exactly when every argument matches the status in string form |
| Charger.IntDiffIsValueDiff | charger.py:49 | for int values the string comparison is the value comparison |
| Charger.MissingKeyComparesAsNone | charger.py:49 | a key missing from the status compares as the string "None": its argument is sent unless the value is None or "None" |
| Charger.DisableIsNoOp | charger.py:44-53 | `disable` sends nothing exactly when `frc` already is the int 1 or the string "1" |
| Charger.Client.GetStatus | charger.py:29-42 | issues the status request with the fixed filter and returns the body or the raised error |
| Charger.Client.CheckForReadiness | charger.py:11-27 | fetches the status and returns what the gate decides |
| Charger.Client.SetValue | charger.py:47-64 | with no differing argument nothing is sent and None returned; otherwise exactly the differing arguments are sent and the reply body returned or its error raised; the status is only read |
| Charger.Client.Disable | charger.py:44-45 | no request when `str(frc)` is "1"; otherwise exactly `frc=1` is sent and the reply body is returned or its error raised |
| Webservice.Ordinal | webservice.py:35 | every valid date has a day number of at least 1 |
| Webservice.FirstOrdinal | webservice.py:35 | day number 1 is 0001-01-01 and no other date |
| Webservice.PreviousDay | webservice.py:35 | the day before is a valid date whose day number is one less; before 0001-01-01 it overflows |
| Webservice.YearLength | webservice.py:35 | the day count of a year is 365 plus one in a leap year |
| Webservice.DaysBeforeDecember | webservice.py:35 | January to November hold 334 days, 335 in a leap year |
| Webservice.FormatDate | webservice.py:33 | `%Y-%m-%d` is ten characters: digits with dashes at positions 4 and 7 |
| Webservice.FormatParseRoundTrip | webservice.py:33 | the formatted date reads back as the date |
| Webservice.FormatDateInjective | webservice.py:33 | different dates give different names |
| Webservice.WithLogSuffix | webservice.py:36-37 | the result ends with `.log` and is the name itself or the name with `.log` appended |
| Webservice.WithLogSuffixIdempotent | webservice.py:36-37 | adding the suffix twice is adding it once |
| Webservice.LogName | webservice.py:32-37 | every normalised name ends with `.log`; other names only gain the suffix; only `yesterday` on 0001-01-01 raises |
| Webservice.DateNameGetsSuffix | webservice.py:36-37 | a formatted date never ends with `.log`, so the suffix is always added |
| Webservice.TodayNamesToday | webservice.py:32-33 | `today` names the file `YYYY-MM-DD.log` of the current date |
| Webservice.YesterdayNamesPreviousDay | webservice.py:34-35 | `yesterday` names the file of the date whose day number is one less than today's |
| Webservice.LogNameIdempotent | webservice.py:36-37 | normalising a normalised name changes nothing |
| Webservice.ReadLog | webservice.py:31-41 | a log is served exactly when the name normalises and its path is a regular file, and that path ends with `.log`; a missing or non-regular path gives 404; `yesterday` on 0001-01-01 raises OverflowError |
| Webservice.WithEnabled | webservice.py:62 | only an object accepts the assignment; afterwards `enabled` reads the payload and no key is lost |
| Webservice.WithEnabledKeepsOtherKeys | webservice.py:62 | every key but `enabled` reads as before |
| Webservice.WithEnabledIdempotent | webservice.py:62 | setting the flag twice is setting it once |
| Webservice.EnabledMessage | webservice.py:67 | the message reads `'enabled' set to True` exactly when the flag is set and `'enabled' set to False` exactly when it is not |
| Webservice.ConfigStore.UpdateEnabled | webservice.py:57-67 | a missing file gives 404 and is left as it is; unreadable or non-object JSON raises and is not rewritten; otherwise only `enabled` changes and the message names the new value |

## Left out

- HTTP, files and FastAPI routing. Requests are ghost log entries, replies are parameters, `token.json` and `config.json` are fields, and the log directory is a map from path to file kind. HTTP Basic auth credentials are recorded in the request but not encoded.
- The wire encoding of request parameters, percent-decoding and the rest of `urlparse`/`parse_qs`. A redirect `Location` is given already split into query and fragment fields.
- Floating point. JSON values have no floats, so `str(float)` is absent; telemetry numbers are ints or exact reals.
- `repr` quoting and escaping of strings inside lists and dicts: a string is always quoted with single quotes.
- The key order and indentation `json.dump` writes; a file is its parsed JSON value.
- Transport failures. `requests` can raise ConnectionError or Timeout before any reply arrives; here every request gets a reply with a status.
- JsonValue.Get: a JSON object with a repeated key is read at its first occurrence, whereas Python's `json` keeps the last. The charger status, `token.json`, the token reply and `config.json` are taken to have distinct keys.
- Logging, and the re-raise in `get_token`'s `except` block (the error is returned unchanged).
- I/O errors while reading or writing `token.json` and `config.json` (permissions, a directory in place of a file).
- Viessmann.IsTokenValid: a non-numeric `exp` makes the comparison raise TypeError in the source; here `exp` is a number.
- Viessmann.IsTokenValid: the source may return the falsy `exp` itself (None or 0) rather than `False`; the model returns the bool it stands for.
- Viessmann.DeviceFeatures: a body that is not JSON and a body that fails validation both raise; the model reports both as a validation error.
- pydantic's lax coercions (a numeric string as a feature value, `"true"` as the `enabled` payload); the records hold already-validated values.
- Webservice.FormatDate: years below 1000 are zero-padded to four digits; how `strftime("%Y")` renders them depends on the platform.
- Webservice.ReadLog: the path join is string concatenation with `/`; a route segment cannot contain `/`, so `Path`'s handling of absolute parts does not arise.
- `list_logs`, `get_config` and `serve_static` in the web service, `logger.py`, `main.py` and `typings.py`: plumbing outside the modelled core.
- The power-allocation policy (candidate table, buffer threshold, state-of-charge and hysteresis overrides, controller fail-safe). It is not present in the source, so there is nothing to model.
- Charger.Client.SetValue: a second identical call is not shown to be a no-op, because `set_value` never updates the status map it compares against.
