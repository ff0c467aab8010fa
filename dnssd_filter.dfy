/** The device filters of a discovery (lib/dns-sd.js:374-412): a string the
    device's fqdn, address, model name or family name must contain, or a user
    function whose result is taken for its truthiness. */
module DnsSdFilter {
  import opened Wrappers
  import opened DnsSdTypes
  import JsStrings

  /** `field && field.indexOf(filter) >= 0`: the field is set, not empty, and
      contains the filter. */
  predicate FieldContains(field: Option<string>, filter: string) {
    field.Some? && field.value != "" && JsStrings.IndexOf(field.value, filter) >= 0
  }

  /** The fields a string filter looks at, in the order it tries them. */
  function Fields(d: Device): seq<Option<string>> {
    [d.fqdn, Some(d.address), d.modelName, d.familyName]
  }

  /** `_evaluateDeviceFilterString`. */
  predicate EvaluateDeviceFilterString(d: Device, filter: string) {
    if FieldContains(d.fqdn, filter) then true
    else if FieldContains(Some(d.address), filter) then true
    else if FieldContains(d.modelName, filter) then true
    else FieldContains(d.familyName, filter)
  }

  /** `_evaluateDeviceFilterFunction`: a throw counts as false, any other
      result is coerced to a boolean. */
  predicate EvaluateDeviceFilterFunction(d: Device, f: FilterFunction): (r: bool)
    ensures r <==> f(d) == Some(true)
  {
    match f(d)
    case None => false
    case Some(b) => b
  }

  /** `_evaluateDeviceFilter`: no filter, or an empty string, lets every
      device through. */
  predicate EvaluateDeviceFilter(d: Device, filter: Filter): (r: bool)
    ensures filter.NoFilter? || filter == ByString("") ==> r
    ensures filter.ByString? && filter.text != "" ==> (r <==> EvaluateDeviceFilterString(d, filter.text))
    ensures filter.ByFunction? ==> (r <==> filter.call(d) == Some(true))
  {
    match filter
    case NoFilter => true
    case ByString(s) => if s == "" then true else EvaluateDeviceFilterString(d, s)
    case ByFunction(f) => EvaluateDeviceFilterFunction(d, f)
  }

  /** A non-empty filter string passes a device exactly when it occurs in at
      least one of the four fields that is set. */
  lemma StringFilterMeaning(d: Device, filter: string)
    requires filter != ""
    ensures EvaluateDeviceFilterString(d, filter) <==>
      exists i, k :: 0 <= i < 4 && Fields(d)[i].Some? && JsStrings.MatchAt(Fields(d)[i].value, filter, k)
  {
    var fs := Fields(d);
    assert fs[0] == d.fqdn && fs[1] == Some(d.address) && fs[2] == d.modelName && fs[3] == d.familyName;
    forall i | 0 <= i < 4
      ensures FieldContains(fs[i], filter) <==> fs[i].Some? && exists k :: JsStrings.MatchAt(fs[i].value, filter, k)
    {
      if fs[i].Some? {
        JsStrings.IndexOfFindsSubstring(fs[i].value, filter);
      }
    }
    assert EvaluateDeviceFilterString(d, filter) <==>
      FieldContains(fs[0], filter) || FieldContains(fs[1], filter)
      || FieldContains(fs[2], filter) || FieldContains(fs[3], filter);
  }

  /** Every field contains the empty string, so a filter string that reached
      this test while empty would pass exactly the devices with a non-empty
      field; `_evaluateDeviceFilter` passes them all before getting here. */
  lemma EmptyStringFilter(d: Device)
    ensures EvaluateDeviceFilterString(d, "") <==>
      exists i :: 0 <= i < 4 && Fields(d)[i].Some? && Fields(d)[i].value != ""
    ensures EvaluateDeviceFilter(d, ByString(""))
  {
    var fs := Fields(d);
    assert fs[0] == d.fqdn && fs[1] == Some(d.address) && fs[2] == d.modelName && fs[3] == d.familyName;
    forall i | 0 <= i < 4
      ensures FieldContains(fs[i], "") <==> fs[i].Some? && fs[i].value != ""
    {
      if fs[i].Some? {
        assert JsStrings.MatchAt(fs[i].value, "", 0);
      }
    }
    assert EvaluateDeviceFilterString(d, "") <==>
      FieldContains(fs[0], "") || FieldContains(fs[1], "") || FieldContains(fs[2], "") || FieldContains(fs[3], "");
  }

  /** A filter that passes a device whose model name contains it: the filter
      "hue" passes a device with model name "Philips hue" whatever its other
      fields hold. */
  lemma ModelNameFilterExample(d: Device)
    requires d.modelName == Some("Philips hue")
    ensures EvaluateDeviceFilter(d, ByString("hue"))
  {
    assert JsStrings.MatchAt("Philips hue", "hue", 8);
    StringFilterMeaning(d, "hue");
    assert Fields(d)[2] == Some("Philips hue");
  }
}
