/**
 * The go-e charger client: the readiness gate over the charger's status map
 * and the diff-before-write setter that `disable` is built on.
 *
 * Every HTTP request the client issues is appended to the ghost `Requests`
 * log, and the reply each request gets is a parameter of the method that
 * issues it.
 */
module Charger {
  import opened Common
  import opened JsonValue

  /** The charger's local API address (the `ChargerConfig` record). */
  datatype ChargerConfig = ChargerConfig(baseUrl: string)

  /** The fields the status request asks for. */
  const StatusFilter: string := "amp,psm,car,frc,nrg,fup,frm,spl3"

  /** A reply from the charger; `body` is None when it is not JSON. */
  datatype HttpReply = HttpReply(status: int, body: Option<Json>)

  datatype Request =
    | StatusGet(url: string, filter: string)
    | SetGet(url: string, params: seq<(string, Json)>)

  /** `response.raise_for_status(); return response.json()`. */
  function ReplyBody(reply: HttpReply): (body: Result<Json>)
    ensures body.Err? <==> RaisesForStatus(reply.status) || reply.body.None?
    ensures RaisesForStatus(reply.status) ==> body == Err(HttpError(reply.status))
    ensures body.Ok? ==> body.value == reply.body.value
  {
    if RaisesForStatus(reply.status) then Err(HttpError(reply.status))
    else if reply.body.None? then Err(JsonDecodeError)
    else Ok(reply.body.value)
  }

  // ---------------------------------------------------------------------
  // Readiness

  /** The outcome of `check_for_readiness`: False, or the status map. */
  datatype Gate = NotReady | Ready(status: Json)

  /** The three rules, in the order the source applies them. `.get` on a
      status that is not a JSON object raises. */
  function Readiness(status: Json): (gate: Result<Gate>)
    ensures gate.Err? <==> !status.JObj?
    ensures gate.Err? ==> gate.error == AttributeError
    ensures gate.Ok? && gate.value.Ready? ==> gate.value.status == status
  {
    if !status.JObj? then Err(AttributeError)
    else
      var fup, car, frc := GetOrNone(status.fields, "fup"), GetOrNone(status.fields, "car"),
                           GetOrNone(status.fields, "frc");
      if !Truthy(fup) then Ok(NotReady)
      else if EqualsInt(car, 1) then Ok(NotReady)
      else if EqualsInt(car, 4) && EqualsInt(frc, 0) then Ok(NotReady)
      else Ok(Ready(status))
  }

  /** The gate opens exactly when surplus charging is on, a vehicle is
      connected, and the vehicle is not both finished (`car == 4`) and
      forced off (`frc == 0`); when it opens it hands back the status it
      was given. */
  lemma ReadinessCharacterised(fields: seq<(string, Json)>)
    ensures var fup, car, frc := GetOrNone(fields, "fup"), GetOrNone(fields, "car"), GetOrNone(fields, "frc");
            Readiness(JObj(fields)) == (if Truthy(fup) && !EqualsInt(car, 1) && !(EqualsInt(car, 4) && EqualsInt(frc, 0))
                                        then Ok(Ready(JObj(fields))) else Ok(NotReady))
  {
  }

  /** A falsy `fup` closes the gate whatever `car` and `frc` hold. */
  lemma SurplusOffCloses(fields: seq<(string, Json)>)
    requires !Truthy(GetOrNone(fields, "fup"))
    ensures Readiness(JObj(fields)) == Ok(NotReady)
  {
  }

  /** A finished vehicle (`car == 4`) blocks only together with `frc == 0`
      (a `False` counts as 0); any other `frc` lets it through when `fup`
      is on. */
  lemma FinishedNeedsForceOff(fields: seq<(string, Json)>)
    requires Truthy(GetOrNone(fields, "fup")) && EqualsInt(GetOrNone(fields, "car"), 4)
    ensures Readiness(JObj(fields)).value.Ready? <==> !EqualsInt(GetOrNone(fields, "frc"), 0)
  {
  }

  /** An open gate has seen a truthy `fup`, so the status it hands back is
      a non-empty map. */
  lemma ReadyStatusIsNonEmpty(status: Json)
    requires Readiness(status).Ok? && Readiness(status).value.Ready?
    ensures status.JObj? && Truthy(GetOrNone(status.fields, "fup")) && |status.fields| > 0
  {
  }

  // ---------------------------------------------------------------------
  // Diff-before-write

  /** Whether `str(status.get(k)) != str(v)`. */
  predicate Differs(status: seq<(string, Json)>, kv: (string, Json)) {
    Str(GetOrNone(status, kv.0)) != Str(kv.1)
  }

  /** Whether `xs` is `ys` with some entries left out, the rest in order. */
  predicate IsSubsequence<T(==)>(xs: seq<T>, ys: seq<T>)
    decreases |ys|
  {
    if |xs| == 0 then true
    else if |ys| == 0 then false
    else (xs[0] == ys[0] && IsSubsequence(xs[1..], ys[1..])) || IsSubsequence(xs, ys[1..])
  }

  /** `{k: v for k, v in kwargs.items() if str(status.get(k)) != str(v)}`,
      in the order of `kwargs`. */
  function Diff(status: seq<(string, Json)>, kwargs: seq<(string, Json)>): (params: seq<(string, Json)>)
    ensures |params| <= |kwargs|
    ensures IsSubsequence(params, kwargs)
    ensures forall kv :: kv in params <==> kv in kwargs && Differs(status, kv)
  {
    if |kwargs| == 0 then []
    else
      var rest := Diff(status, kwargs[1..]);
      assert forall kv :: kv in kwargs <==> kv == kwargs[0] || kv in kwargs[1..];
      if Differs(status, kwargs[0]) then [kwargs[0]] + rest else rest
  }

  /** The diff of a concatenation is the concatenation of the diffs: each
      argument is kept or dropped on its own, and the kept ones stay in
      order. */
  lemma {:induction false} DiffConcat(status: seq<(string, Json)>, a: seq<(string, Json)>, b: seq<(string, Json)>)
    ensures Diff(status, a + b) == Diff(status, a) + Diff(status, b)
  {
    if |a| == 0 {
      assert a + b == b;
    } else {
      assert (a + b)[0] == a[0] && (a + b)[1..] == a[1..] + b;
      DiffConcat(status, a[1..], b);
    }
  }

  /** A single argument is sent exactly when it differs. */
  lemma DiffOfOne(status: seq<(string, Json)>, kv: (string, Json))
    ensures Diff(status, [kv]) == if Differs(status, kv) then [kv] else []
  {
    assert [kv][1..] == [];
  }

  /** Nothing is sent exactly when every argument already matches the
      status in string form. */
  lemma DiffEmpty(status: seq<(string, Json)>, kwargs: seq<(string, Json)>)
    ensures Diff(status, kwargs) == [] <==> forall k | 0 <= k < |kwargs| :: !Differs(status, kwargs[k])
  {
    if Diff(status, kwargs) != [] {
      var kv := Diff(status, kwargs)[0];
      assert kv in Diff(status, kwargs);
      var k :| 0 <= k < |kwargs| && kwargs[k] == kv;
    } else {
      forall k | 0 <= k < |kwargs| ensures !Differs(status, kwargs[k]) {
        assert kwargs[k] in kwargs;
      }
    }
  }

  /** For two ints the string comparison is the value comparison. */
  lemma IntDiffIsValueDiff(status: seq<(string, Json)>, key: string, current: int, wanted: int)
    requires Get(status, key) == Some(JInt(current))
    ensures Differs(status, (key, JInt(wanted))) <==> current != wanted
  {
    IntToDecimalInjective(current, wanted);
  }

  /** A key missing from the status compares as the string "None". */
  lemma MissingKeyComparesAsNone(status: seq<(string, Json)>, kv: (string, Json))
    requires kv.0 !in Keys(status)
    ensures Differs(status, kv) <==> Str(kv.1) != "None"
    ensures Differs(status, kv) <==> kv.1 != JNull && kv.1 != JStr("None")
  {
  }

  /** `disable` sends nothing exactly when the status already holds `frc`
      as the int 1 or the string "1"; a `True` there is sent again. */
  lemma DisableIsNoOp(status: seq<(string, Json)>)
    ensures Diff(status, [("frc", JInt(1))]) == [] <==>
              GetOrNone(status, "frc") == JInt(1) || GetOrNone(status, "frc") == JStr("1")
  {
    StrIsOne(GetOrNone(status, "frc"));
    assert Str(JInt(1)) == "1";
    DiffEmpty(status, [("frc", JInt(1))]);
  }

  // ---------------------------------------------------------------------
  // The client

  class Client {
    const config: ChargerConfig

    /** Every HTTP request issued, in order. */
    ghost var Requests: seq<Request>

    constructor (config: ChargerConfig)
      ensures this.config == config && Requests == []
    {
      this.config := config;
      Requests := [];
    }

    /** `get_status`: the status map, or the error the reply raises. */
    method GetStatus(reply: HttpReply) returns (status: Result<Json>)
      modifies this`Requests
      ensures Requests == old(Requests) + [StatusGet(config.baseUrl + "/status", StatusFilter)]
      ensures status == ReplyBody(reply)
    {
      Requests := Requests + [StatusGet(config.baseUrl + "/status", StatusFilter)];
      status := ReplyBody(reply);
    }

    /** `check_for_readiness`: fetch the status, then apply the gate. */
    method CheckForReadiness(reply: HttpReply) returns (gate: Result<Gate>)
      modifies this`Requests
      ensures Requests == old(Requests) + [StatusGet(config.baseUrl + "/status", StatusFilter)]
      ensures gate == match ReplyBody(reply) case Err(e) => Err(e) case Ok(status) => Readiness(status)
    {
      var status := GetStatus(reply);
      if status.Err? {
        return Err(status.error);
      }
      if !status.value.JObj? {
        return Err(AttributeError);
      }
      var fields := status.value.fields;
      var fup, car, frc := GetOrNone(fields, "fup"), GetOrNone(fields, "car"), GetOrNone(fields, "frc");
      if !Truthy(fup) {
        return Ok(NotReady);
      }
      if EqualsInt(car, 1) {
        return Ok(NotReady);
      }
      if EqualsInt(car, 4) && EqualsInt(frc, 0) {
        return Ok(NotReady);
      }
      return Ok(Ready(status.value));
    }

    /** `set_value`: send only the arguments that differ from the status, and
        send nothing (returning None) when none does. The status is only
        read. */
    method SetValue(status: Json, kwargs: seq<(string, Json)>, reply: HttpReply)
      returns (result: Result<Option<Json>>)
      modifies this`Requests
      ensures kwargs != [] && !status.JObj? ==> result == Err(AttributeError) && Requests == old(Requests)
      ensures kwargs == [] || (status.JObj? && Diff(status.fields, kwargs) == []) ==>
                result == Ok(None) && Requests == old(Requests)
      ensures status.JObj? && Diff(status.fields, kwargs) != [] ==>
                && Requests == old(Requests) + [SetGet(config.baseUrl + "/set", Diff(status.fields, kwargs))]
                && result == match ReplyBody(reply) case Err(e) => Err(e) case Ok(body) => Ok(Some(body))
    {
      if kwargs == [] {
        return Ok(None);
      }
      if !status.JObj? {
        return Err(AttributeError);
      }
      var params := Diff(status.fields, kwargs);
      if params == [] {
        return Ok(None);
      }
      Requests := Requests + [SetGet(config.baseUrl + "/set", params)];
      var body := ReplyBody(reply);
      if body.Err? {
        return Err(body.error);
      }
      result := Ok(Some(body.value));
    }

    /** `disable`: `set_value(status, frc=1)`. */
    method Disable(status: Json, reply: HttpReply) returns (result: Result<Option<Json>>)
      modifies this`Requests
      ensures !status.JObj? ==> result == Err(AttributeError) && Requests == old(Requests)
      ensures status.JObj? && Str(GetOrNone(status.fields, "frc")) == "1" ==>
                result == Ok(None) && Requests == old(Requests)
      ensures status.JObj? && Str(GetOrNone(status.fields, "frc")) != "1" ==>
                && Requests == old(Requests) + [SetGet(config.baseUrl + "/set", [("frc", JInt(1))])]
                && result == match ReplyBody(reply) case Err(e) => Err(e) case Ok(body) => Ok(Some(body))
    {
      var kwargs := [("frc", JInt(1))];
      if status.JObj? {
        assert Str(JInt(1)) == "1";
        assert kwargs[1..] == [];
        if Differs(status.fields, kwargs[0]) {
          assert Diff(status.fields, kwargs) == kwargs;
        }
      }
      result := SetValue(status, kwargs, reply);
    }
  }
}
