/** Validation of the options of `discover` (lib/dns-sd.js:178-267). The
    argument is an arbitrary JavaScript value, so it is modelled as one; the
    checks run in the source's order and the first failing check decides the
    error. */
module DnsSdParams {
  import opened Wrappers
  import opened DnsSdTypes
  import JsStrings

  /** The JavaScript values an option may hold. Numbers are finite reals, with
      NaN and the two infinities as separate values. */
  datatype JsValue =
    | JUndefined
    | JNull
    | JBool(b: bool)
    | JNumber(num: real)
    | JNaN
    | JInfinity(negative: bool)
    | JString(str: string)
    | JArray(elements: seq<JsValue>)
    | JObject(properties: map<string, JsValue>)
    | JFunction(call: FilterFunction)

  /** JavaScript truthiness. */
  predicate Truthy(v: JsValue) {
    match v
    case JUndefined => false
    case JNull => false
    case JBool(b) => b
    case JNumber(n) => n != 0.0
    case JNaN => false
    case JInfinity(_) => true
    case JString(s) => s != ""
    case _ => true
  }

  /** `typeof v`. */
  function TypeOf(v: JsValue): string {
    match v
    case JUndefined => "undefined"
    case JBool(_) => "boolean"
    case JNumber(_) => "number"
    case JNaN => "number"
    case JInfinity(_) => "number"
    case JString(_) => "string"
    case JFunction(_) => "function"
    case _ => "object"
  }

  /** The own properties `key in params` can find; an array has none of the
      option names. */
  function Properties(v: JsValue): map<string, JsValue> {
    if v.JObject? then v.properties else map[]
  }

  datatype ParamError =
    | ParamsInvalid
    | ParamsRequired
    | NameEmptyString
    | NameEmptyArray
    | NameTooMany
    | NameElementInvalid
    | NameTypeInvalid
    | NameRequired
    | TypeInvalid
    | KeyInvalid
    | WaitInvalid
    | QuickInvalid
    | FilterInvalid
  {
    /** The message of the `Error` the source returns. */
    function Text(): string {
      match this
      case ParamsInvalid => "The argument `params` is invalid."
      case ParamsRequired => "The argument `params` is required."
      case NameEmptyString => "The `name` must be an non-empty string."
      case NameEmptyArray => "The `name` must be a non-empty array."
      case NameTooMany => "The `name` can include up to 255 elements."
      case NameElementInvalid => "The `name` must be an Array object including non-empty strings."
      case NameTypeInvalid => "The `name` must be a string or an Array object."
      case NameRequired => "The `name` is required."
      case TypeInvalid => "The `type` is invalid."
      case KeyInvalid => "The `key` is invalid."
      case WaitInvalid => "The `wait` is invalid."
      case QuickInvalid => "The `quick` must be a boolean."
      case FilterInvalid => "The `filter` must be a string."
    }
  }

  /** The object `p` the validation fills in. */
  datatype DiscoveryParams = DiscoveryParams(
    names: seq<string>,
    qtype: Option<string>,
    key: Option<KeyBy>,
    wait: Option<nat>,
    quick: bool,
    filter: Filter)

  const MAX_NAMES: nat := 255

  predicate IsNameString(v: JsValue) {
    v.JString? && v.str != ""
  }

  /** What the `name` option may be: a non-empty string, or 1 to 255 non-empty
      strings. */
  predicate NameOk(v: JsValue) {
    IsNameString(v)
    || (v.JArray? && 1 <= |v.elements| <= MAX_NAMES
        && forall i :: 0 <= i < |v.elements| ==> IsNameString(v.elements[i]))
  }

  predicate IsAsciiAlnum(c: char) {
    ('a' <= c <= 'z') || ('A' <= c <= 'Z') || ('0' <= c <= '9')
  }

  /** `/^[a-zA-Z0-9]{1,10}$/.test(s)`. */
  predicate TypePattern(s: string) {
    1 <= |s| <= 10 && forall i :: 0 <= i < |s| ==> IsAsciiAlnum(s[i])
  }

  predicate TypeOk(v: JsValue) {
    v.JString? && (TypePattern(v.str) || v.str == "*")
  }

  predicate KeyOk(v: JsValue) {
    v.JString? && (v.str == "address" || v.str == "fqdn")
  }

  /** A positive whole number; NaN and the infinities fail `v % 1 === 0`. */
  predicate WaitOk(v: JsValue) {
    v.JNumber? && v.num > 0.0 && v.num.Floor as real == v.num
  }

  predicate FilterOk(v: JsValue) {
    v.JString? || v.JFunction?
  }

  /** The options the validation accepts, as one condition. */
  predicate Acceptable(params: JsValue) {
    var props := Properties(params);
    && Truthy(params) && TypeOf(params) == "object"
    && "name" in props && NameOk(props["name"])
    && ("type" in props ==> TypeOk(props["type"]))
    && ("key" in props ==> KeyOk(props["key"]))
    && ("wait" in props ==> WaitOk(props["wait"]))
    && ("quick" in props ==> props["quick"].JBool?)
    && ("filter" in props ==> FilterOk(props["filter"]))
  }

  /** The strings of an array of strings, in order. */
  function Strings(vs: seq<JsValue>): (r: seq<string>)
    requires forall i :: 0 <= i < |vs| ==> vs[i].JString?
    ensures |r| == |vs|
    ensures forall i :: 0 <= i < |vs| ==> r[i] == vs[i].str
  {
    if vs == [] then [] else [vs[0].str] + Strings(vs[1..])
  }

  function ParseName(props: map<string, JsValue>): (r: Result<seq<string>, ParamError>)
    ensures r.Ok? <==> "name" in props && NameOk(props["name"])
    ensures r.Ok? ==> 1 <= |r.value| <= MAX_NAMES
    ensures r.Ok? ==> forall i :: 0 <= i < |r.value| ==> r.value[i] != ""
    ensures r.Ok? && props["name"].JString? ==> r.value == [props["name"].str]
    ensures r.Ok? && props["name"].JArray? ==>
      |r.value| == |props["name"].elements|
      && forall i :: 0 <= i < |r.value| ==> props["name"].elements[i] == JString(r.value[i])
    ensures "name" !in props ==> r == Err(NameRequired)
  {
    if "name" !in props then Err(NameRequired)
    else
      match props["name"]
      case JString(s) =>
        if s == "" then Err(NameEmptyString) else Ok([s])
      case JArray(vs) =>
        if |vs| == 0 then Err(NameEmptyArray)
        else if |vs| > MAX_NAMES then Err(NameTooMany)
        else if exists i :: 0 <= i < |vs| && !IsNameString(vs[i]) then Err(NameElementInvalid)
        else Ok(Strings(vs))
      case _ => Err(NameTypeInvalid)
  }

  function ParseType(props: map<string, JsValue>): (r: Result<Option<string>, ParamError>)
    ensures r.Ok? <==> ("type" in props ==> TypeOk(props["type"]))
    ensures r.Ok? && "type" !in props ==> r.value == None
    ensures r.Ok? && "type" in props ==>
      r.value.Some? && |r.value.value| == |props["type"].str|
      && (forall i :: 0 <= i < |r.value.value| ==> r.value.value[i] == JsStrings.UpperChar(props["type"].str[i]))
      && (forall i :: 0 <= i < |r.value.value| ==> !('a' <= r.value.value[i] <= 'z'))
  {
    if "type" !in props then Ok(None)
    else
      var v := props["type"];
      if !TypeOk(v) then Err(TypeInvalid) else Ok(Some(JsStrings.ToUpperAscii(v.str)))
  }

  function ParseKey(props: map<string, JsValue>): (r: Result<Option<KeyBy>, ParamError>)
    ensures r.Ok? <==> ("key" in props ==> KeyOk(props["key"]))
    ensures r.Ok? ==> (r.value == Some(ByFqdn) <==> "key" in props && props["key"].str == "fqdn")
    ensures r.Ok? ==> (r.value == None <==> "key" !in props)
  {
    if "key" !in props then Ok(None)
    else
      var v := props["key"];
      if !KeyOk(v) then Err(KeyInvalid)
      else if v.str == "address" then Ok(Some(ByAddress))
      else Ok(Some(ByFqdn))
  }

  function ParseWait(props: map<string, JsValue>): (r: Result<Option<nat>, ParamError>)
    ensures r.Ok? <==> ("wait" in props ==> WaitOk(props["wait"]))
    ensures r.Ok? && "wait" in props ==>
      r.value.Some? && r.value.value >= 1 && r.value.value as real == props["wait"].num
    ensures r.Ok? && "wait" !in props ==> r.value == None
  {
    if "wait" !in props then Ok(None)
    else
      var v := props["wait"];
      if !WaitOk(v) then Err(WaitInvalid) else Ok(Some(v.num.Floor))
  }

  function ParseQuick(props: map<string, JsValue>): (r: Result<bool, ParamError>)
    ensures r.Ok? <==> ("quick" in props ==> props["quick"].JBool?)
    ensures r.Ok? ==> (r.value <==> "quick" in props && props["quick"] == JBool(true))
  {
    if "quick" !in props then Ok(false)
    else
      match props["quick"]
      case JBool(b) => Ok(b)
      case _ => Err(QuickInvalid)
  }

  function ParseFilter(props: map<string, JsValue>): (r: Result<Filter, ParamError>)
    ensures r.Ok? <==> ("filter" in props ==> FilterOk(props["filter"]))
    ensures r.Ok? ==> (r.value == NoFilter <==> "filter" !in props || props["filter"] == JString(""))
    ensures r.Ok? && r.value.ByString? ==> r.value.text != "" && props["filter"] == JString(r.value.text)
    ensures r.Ok? && r.value.ByFunction? ==> "filter" in props && props["filter"].JFunction?
  {
    if "filter" !in props then Ok(NoFilter)
    else
      match props["filter"]
      case JString(s) => if s == "" then Ok(NoFilter) else Ok(ByString(s))
      case JFunction(f) => Ok(ByFunction(f))
      case _ => Err(FilterInvalid)
  }

  /** `_checkDiscoveryParameters` as one value: the options accepted, or the
      error of the first check that fails. */
  function ParseParams(params: JsValue): (r: Result<DiscoveryParams, ParamError>)
    ensures r.Ok? <==> Acceptable(params)
    ensures !Truthy(params) ==> r == Err(ParamsRequired)
    ensures Truthy(params) && TypeOf(params) != "object" ==> r == Err(ParamsInvalid)
  {
    if !Truthy(params) then Err(ParamsRequired)
    else if TypeOf(params) != "object" then Err(ParamsInvalid)
    else
      var props := Properties(params);
      var names :- ParseName(props);
      var qtype :- ParseType(props);
      var key :- ParseKey(props);
      var wait :- ParseWait(props);
      var quick :- ParseQuick(props);
      var filter :- ParseFilter(props);
      Ok(DiscoveryParams(names, qtype, key, wait, quick, filter))
  }

  /** The options are checked in source order and the first one that fails
      decides the error: an invalid `name` is reported before anything else,
      an option whose predecessors all passed reports its own error when it
      fails, and an option is only reported when everything before it passed. */
  lemma ErrorOrder(params: JsValue)
    requires Truthy(params) && TypeOf(params) == "object"
    ensures var props := Properties(params);
      && (ParseName(props).Err? ==> ParseParams(params) == Err(ParseName(props).error))
      && (ParseName(props).Ok? && ParseType(props).Err? ==> ParseParams(params) == Err(TypeInvalid))
      && (ParseName(props).Ok? && ParseType(props).Ok? && ParseKey(props).Err? ==>
            ParseParams(params) == Err(KeyInvalid))
      && (ParseName(props).Ok? && ParseType(props).Ok? && ParseKey(props).Ok? && ParseWait(props).Err? ==>
            ParseParams(params) == Err(WaitInvalid))
      && ((ParseName(props).Ok? && ParseType(props).Ok? && ParseKey(props).Ok? && ParseWait(props).Ok?
            && ParseQuick(props).Err?) ==> ParseParams(params) == Err(QuickInvalid))
      && ((ParseName(props).Ok? && ParseType(props).Ok? && ParseKey(props).Ok? && ParseWait(props).Ok?
            && ParseQuick(props).Ok? && ParseFilter(props).Err?) ==> ParseParams(params) == Err(FilterInvalid))
      && (ParseName(props).Ok? && ParseParams(params).Err? ==>
            ParseParams(params).error in {TypeInvalid, KeyInvalid, WaitInvalid, QuickInvalid, FilterInvalid})
      && (ParseParams(params) == Err(TypeInvalid) ==> ParseName(props).Ok?)
      && (ParseParams(params) == Err(KeyInvalid) ==> ParseName(props).Ok? && ParseType(props).Ok?)
      && (ParseParams(params) == Err(WaitInvalid) ==>
            ParseName(props).Ok? && ParseType(props).Ok? && ParseKey(props).Ok?)
      && (ParseParams(params) == Err(QuickInvalid) ==>
            ParseName(props).Ok? && ParseType(props).Ok? && ParseKey(props).Ok? && ParseWait(props).Ok?)
      && (ParseParams(params) == Err(FilterInvalid) ==>
            ParseName(props).Ok? && ParseType(props).Ok? && ParseKey(props).Ok? && ParseWait(props).Ok?
            && ParseQuick(props).Ok?)
  {
  }

  /** The `name` part of `_checkDiscoveryParameters`: the loop over an array
      of names stops at the first element that is not a non-empty string. */
  method CheckName(props: map<string, JsValue>) returns (r: Result<seq<string>, ParamError>)
    ensures r == ParseName(props)
  {
    if "name" !in props {
      return Err(NameRequired);
    }
    var v := props["name"];
    if v.JString? {
      if v.str == "" {
        return Err(NameEmptyString);
      }
      return Ok([v.str]);
    } else if v.JArray? {
      var vs := v.elements;
      if |vs| == 0 {
        return Err(NameEmptyArray);
      } else if |vs| > MAX_NAMES {
        return Err(NameTooMany);
      }
      var failed := false;
      var list: seq<string> := [];
      var i := 0;
      while i < |vs|
        invariant 0 <= i <= |vs|
        invariant !failed && |list| == i
        invariant forall k :: 0 <= k < i ==> IsNameString(vs[k]) && list[k] == vs[k].str
      {
        if IsNameString(vs[i]) {
          list := list + [vs[i].str];
        } else {
          failed := true;
          break;
        }
        i := i + 1;
      }
      if failed {
        return Err(NameElementInvalid);
      }
      assert list == Strings(vs);
      return Ok(list);
    } else {
      return Err(NameTypeInvalid);
    }
  }

  /** `_checkDiscoveryParameters`, filling `p` option by option. */
  method CheckDiscoveryParameters(params: JsValue) returns (r: Result<DiscoveryParams, ParamError>)
    ensures r == ParseParams(params)
  {
    if !Truthy(params) {
      return Err(ParamsRequired);
    }
    if TypeOf(params) != "object" {
      return Err(ParamsInvalid);
    }
    var props := Properties(params);

    var names :- CheckName(props);

    var qtype: Option<string> := None;
    if "type" in props {
      var t := props["type"];
      if !t.JString? || !(TypePattern(t.str) || t.str == "*") {
        return Err(TypeInvalid);
      }
      qtype := Some(JsStrings.ToUpperAscii(t.str));
    }
    assert ParseType(props) == Ok(qtype);

    var key: Option<KeyBy> := None;
    if "key" in props {
      var k := props["key"];
      if !k.JString? || !(k.str == "address" || k.str == "fqdn") {
        return Err(KeyInvalid);
      }
      key := if k.str == "address" then Some(ByAddress) else Some(ByFqdn);
    }

    var wait: Option<nat> := None;
    if "wait" in props {
      var w := props["wait"];
      if !w.JNumber? || w.num <= 0.0 || w.num.Floor as real != w.num {
        return Err(WaitInvalid);
      }
      wait := Some(w.num.Floor);
    }

    var quick := false;
    if "quick" in props {
      var q := props["quick"];
      if !q.JBool? {
        return Err(QuickInvalid);
      }
      quick := q.b;
    }

    var filter := NoFilter;
    if "filter" in props {
      var f := props["filter"];
      if !f.JString? && !f.JFunction? {
        return Err(FilterInvalid);
      }
      if Truthy(f) {
        filter := if f.JString? then ByString(f.str) else ByFunction(f.call);
      }
    }

    r := Ok(DiscoveryParams(names, qtype, key, wait, quick, filter));
  }
}
