/** The GeoJSON helpers of the vector resource (server/crms/vector.py):
    `_ensure_feature_collection`, which wraps a Feature or a bare geometry
    into a FeatureCollection, and `_detect_geojson_epsg`, which reads the
    EPSG code from a `name` or `link` crs member, from a `crs_wkt` member
    through OSR, or falls back to 4326. Any exception inside the detection
    is caught and also gives 4326. OSR's reading of a WKT text is a
    parameter. */
module GeoJson {
  import opened Wrappers
  import opened Text

  /** A decoded JSON value; a dict is a map from its keys. */
  datatype Json = JNull | JBool(b: bool) | JNum(x: real) | JStr(s: string) | JArr(items: seq<Json>)
                | JObj(fields: map<string, Json>)

  /** Python's truth value of a decoded JSON value. */
  predicate Truthy(v: Json)
  {
    match v
    case JNull => false
    case JBool(b) => b
    case JNum(x) => x != 0.0
    case JStr(s) => s != ""
    case JArr(items) => items != []
    case JObj(fields) => fields != map[]
  }

  /** `d.get(k, default)` */
  function GetOr(m: map<string, Json>, k: string, default: Json): Json
  {
    if k in m then m[k] else default
  }

  // ---------------------------------------------------------------------
  // `_ensure_feature_collection`

  datatype GeoError = NotADict | UnsupportedType(geojsonType: Json)

  const GEOMETRY_TYPES: seq<string> :=
    ["Point", "LineString", "Polygon", "MultiPoint", "MultiLineString", "MultiPolygon", "GeometryCollection"]

  /** `{'type': 'FeatureCollection', 'features': [f]}` */
  function Collection(f: Json): Json
  {
    JObj(map["type" := JStr("FeatureCollection"), "features" := JArr([f])])
  }

  /** `{'type': 'Feature', 'geometry': g, 'properties': {}}` */
  function Feature(g: Json): Json
  {
    JObj(map["type" := JStr("Feature"), "geometry" := g, "properties" := JObj(map[])])
  }

  predicate IsCollection(v: Json)
  {
    v.JObj? && GetOr(v.fields, "type", JNull) == JStr("FeatureCollection")
  }

  function EnsureFeatureCollection(data: Json): (r: Result<Json, GeoError>)
    ensures r.Ok? ==> IsCollection(r.value)
  {
    if !data.JObj? then Err(NotADict)
    else
      var t := GetOr(data.fields, "type", JNull);
      if t == JStr("FeatureCollection") then Ok(data)
      else if t == JStr("Feature") then Ok(Collection(data))
      else if t.JStr? && t.s in GEOMETRY_TYPES then Ok(Collection(Feature(data)))
      else Err(UnsupportedType(t))
  }

  /** A FeatureCollection is returned as it is. */
  lemma CollectionUnchanged(data: Json)
    requires IsCollection(data)
    ensures EnsureFeatureCollection(data) == Ok(data)
  {
  }

  /** A Feature becomes the collection whose only feature it is. */
  lemma FeatureWrapped(data: Json)
    requires data.JObj? && GetOr(data.fields, "type", JNull) == JStr("Feature")
    ensures var r := EnsureFeatureCollection(data);
      r.Ok? && r.value.JObj? && r.value.fields["features"] == JArr([data])
  {
  }

  /** A bare geometry becomes the one Feature, with empty properties, of a
      collection. */
  lemma GeometryWrapped(data: Json, k: nat)
    requires data.JObj? && k < |GEOMETRY_TYPES| && GetOr(data.fields, "type", JNull) == JStr(GEOMETRY_TYPES[k])
    ensures var r := EnsureFeatureCollection(data);
      && r.Ok? && r.value.JObj? && r.value.fields["features"].JArr?
      && var fs := r.value.fields["features"].items;
      && |fs| == 1 && fs[0].JObj? && fs[0].fields["type"] == JStr("Feature")
      && fs[0].fields["geometry"] == data && fs[0].fields["properties"] == JObj(map[])
  {
  }

  /** The ValueErrors: a value that is not a dict, or a dict whose type is
      none of the nine GeoJSON types. */
  lemma EnsureRejects(data: Json)
    ensures EnsureFeatureCollection(data).Err? <==>
      || !data.JObj?
      || var t := GetOr(data.fields, "type", JNull);
         t != JStr("FeatureCollection") && t != JStr("Feature") && !(t.JStr? && t.s in GEOMETRY_TYPES)
    ensures !data.JObj? ==> EnsureFeatureCollection(data) == Err(NotADict)
  {
  }

  /** Applying it twice is applying it once. */
  lemma EnsureIdempotent(data: Json)
    requires EnsureFeatureCollection(data).Ok?
    ensures EnsureFeatureCollection(EnsureFeatureCollection(data).value) == EnsureFeatureCollection(data)
  {
    CollectionUnchanged(EnsureFeatureCollection(data).value);
  }

  // ---------------------------------------------------------------------
  // Substrings, `str.split` and `re.search`

  predicate OccursAt(s: string, t: string, i: nat)
  {
    i + |t| <= |s| && s[i..i + |t|] == t
  }

  /** The leftmost occurrence of t in s at or after i. */
  function FindFrom(s: string, t: string, i: nat): (r: Option<nat>)
    ensures r.Some? ==> i <= r.value && r.value + |t| <= |s|
    decreases |s| - i
  {
    if i + |t| > |s| then None
    else if s[i..i + |t|] == t then Some(i)
    else FindFrom(s, t, i + 1)
  }

  /** `FindFrom` finds an occurrence with none before it, or there is none. */
  lemma {:induction false} FindFromSpec(s: string, t: string, i: nat)
    ensures var r := FindFrom(s, t, i);
      && (r.Some? ==> OccursAt(s, t, r.value) && forall j :: i <= j < r.value ==> !OccursAt(s, t, j))
      && (r.None? ==> forall j :: i <= j ==> !OccursAt(s, t, j))
    decreases |s| - i
  {
    if i + |t| <= |s| && s[i..i + |t|] != t {
      FindFromSpec(s, t, i + 1);
    }
  }

  /** `t in s` for strings. */
  predicate Contains(s: string, t: string)
  {
    FindFrom(s, t, 0).Some?
  }

  lemma ContainsIff(s: string, t: string)
    ensures Contains(s, t) <==> exists i: nat :: OccursAt(s, t, i)
  {
    FindFromSpec(s, t, 0);
    if Contains(s, t) {
      assert OccursAt(s, t, FindFrom(s, t, 0).value);
    }
  }

  /** `s.split(sep)[-1]`: the text after the last separator that splitting
      from the left finds, or s when there is none. */
  function SplitLast(s: string, sep: string): string
    requires |sep| > 0
    decreases |s|
  {
    var k := FindFrom(s, sep, 0);
    if k.None? then s else SplitLast(s[k.value + |sep|..], sep)
  }

  /** The last piece is a suffix of s without the separator in it. */
  lemma {:induction false} SplitLastSuffix(s: string, sep: string)
    requires |sep| > 0
    ensures var r := SplitLast(s, sep); |r| <= |s| && s[|s| - |r|..] == r && !Contains(r, sep)
    decreases |s|
  {
    var k := FindFrom(s, sep, 0);
    if k.Some? {
      var rest := s[k.value + |sep|..];
      SplitLastSuffix(rest, sep);
      var r := SplitLast(rest, sep);
      assert SplitLast(s, sep) == r;
      assert s[|s| - |r|..] == rest[|rest| - |r|..];
    }
  }

  /** When s holds the separator, a separator ends just before the last piece. */
  lemma {:induction false} SplitLastAfterSep(s: string, sep: string)
    requires |sep| > 0 && Contains(s, sep)
    ensures |SplitLast(s, sep)| + |sep| <= |s|
    ensures OccursAt(s, sep, |s| - |SplitLast(s, sep)| - |sep|)
    decreases |s|
  {
    var k := FindFrom(s, sep, 0).value;
    var rest := s[k + |sep|..];
    assert SplitLast(s, sep) == SplitLast(rest, sep);
    if Contains(rest, sep) {
      SplitLastAfterSep(rest, sep);
      var j := |rest| - |SplitLast(rest, sep)| - |sep|;
      OccursInSuffix(s, sep, k + |sep|, j);
      assert k + |sep| + j == |s| - |SplitLast(s, sep)| - |sep|;
    } else {
      SplitLastSuffix(rest, sep);
      assert SplitLast(rest, sep) == rest;
      FindFromSpec(s, sep, 0);
    }
  }

  /** An occurrence in a suffix of s is an occurrence in s. */
  lemma OccursInSuffix(s: string, t: string, a: nat, j: nat)
    requires a <= |s| && OccursAt(s[a..], t, j)
    ensures OccursAt(s, t, a + j)
  {
    SliceOfSuffix(s, a, j, j + |t|);
  }

  lemma SliceOfSuffix(s: string, a: nat, b: nat, c: nat)
    requires a <= |s| && b <= c <= |s| - a
    ensures s[a..][b..c] == s[a + b..a + c]
  {
  }

  /** The number of ASCII digits starting at i. */
  function DigitRun(s: string, i: nat): (n: nat)
    ensures i + n <= |s| || n == 0
    ensures forall j :: i <= j < i + n ==> IsDigit(s[j])
    ensures i + n < |s| ==> !IsDigit(s[i + n])
    decreases |s| - i
  {
    if i < |s| && IsDigit(s[i]) then 1 + DigitRun(s, i + 1) else 0
  }

  /** The group of `EPSG:?(\d+)` matching at p: "EPSG", then the colon if
      digits follow it, and the longest run of digits after that. */
  function CodeAt(s: string, p: nat): (c: Option<string>)
    ensures c.Some? ==> |c.value| > 0 && AllDigits(c.value)
  {
    if !OccursAt(s, "EPSG", p) then None
    else
      var q := p + 4;
      if q < |s| && s[q] == ':' && DigitRun(s, q + 1) > 0 then Some(s[q + 1..q + 1 + DigitRun(s, q + 1)])
      else if DigitRun(s, q) > 0 then Some(s[q..q + DigitRun(s, q)])
      else None
  }

  /** `re.search(r'EPSG:?(\d+)', s)` from position p on: the group of the
      leftmost match. */
  function SearchFrom(s: string, p: nat): (c: Option<string>)
    ensures c.Some? ==> |c.value| > 0 && AllDigits(c.value)
    decreases |s| - p
  {
    if p + 4 > |s| then None
    else if CodeAt(s, p).Some? then CodeAt(s, p)
    else SearchFrom(s, p + 1)
  }

  function EpsgSearch(s: string): Option<string>
  {
    SearchFrom(s, 0)
  }

  /** The search fails exactly when no position matches. */
  lemma {:induction false} SearchNone(s: string, p: nat)
    ensures SearchFrom(s, p).None? <==> forall q: nat :: p <= q ==> CodeAt(s, q).None?
    decreases |s| - p
  {
    if p + 4 > |s| {
      forall q: nat | p <= q ensures CodeAt(s, q).None? {
        assert !OccursAt(s, "EPSG", q);
      }
    } else if CodeAt(s, p).None? {
      SearchNone(s, p + 1);
      if SearchFrom(s, p + 1).None? {
        forall q: nat | p <= q ensures CodeAt(s, q).None? {
          if q > p {
            assert p + 1 <= q;
          }
        }
      }
    }
  }

  /** The match is leftmost: no earlier position matches. */
  lemma {:induction false} SearchLeftmost(s: string, p: nat)
    requires SearchFrom(s, p).Some?
    ensures exists q: nat :: p <= q && CodeAt(s, q) == SearchFrom(s, p)
                             && forall j: nat :: p <= j < q ==> CodeAt(s, j).None?
    decreases |s| - p
  {
    if CodeAt(s, p).None? {
      assert SearchFrom(s, p) == SearchFrom(s, p + 1);
      SearchLeftmost(s, p + 1);
      var q: nat :| p + 1 <= q && CodeAt(s, q) == SearchFrom(s, p + 1)
                    && forall j: nat :: p + 1 <= j < q ==> CodeAt(s, j).None?;
      assert forall j: nat :: p <= j < q ==> CodeAt(s, j).None?;
    } else {
      assert CodeAt(s, p) == SearchFrom(s, p);
      assert forall j: nat :: p <= j < p ==> CodeAt(s, j).None?;
    }
  }

  /** The search is case-sensitive: without "EPSG" in the text there is no
      match. */
  lemma SearchNeedsEpsg(s: string)
    requires !Contains(s, "EPSG")
    ensures EpsgSearch(s) == None
  {
    FindFromSpec(s, "EPSG", 0);
    SearchNone(s, 0);
  }

  // ---------------------------------------------------------------------
  // `_detect_geojson_epsg`

  /** `DEFAULT_EPSG` */
  const DEFAULT_EPSG: string := "4326"

  /** How the `if crs:` block ends: a code returned, falling through to the
      WKT check, or an exception (caught, giving the default). */
  datatype Step = Found(code: string) | FallThrough | Raised

  /** `'t' in v`: substring for a string, membership for a list, a key for a
      dict; None for the TypeError on any other value. */
  function PyIn(t: string, v: Json): Option<bool>
  {
    match v
    case JStr(s) => Some(Contains(s, t))
    case JArr(items) => Some(JStr(t) in items)
    case JObj(fields) => Some(t in fields)
    case _ => None
  }

  /** `crs.get('properties', {})` as a dict; None when it is not one, since
      `.get` on it then raises. */
  function PropsOf(crs: map<string, Json>): Option<map<string, Json>>
  {
    var p := GetOr(crs, "properties", JObj(map[]));
    if p.JObj? then Some(p.fields) else None
  }

  /** The `type == 'name'` branch. */
  function NameStep(crs: map<string, Json>): Step
  {
    var props := PropsOf(crs);
    if props.None? then Raised
    else
      var name := GetOr(props.value, "name", JStr(""));
      var has := PyIn("EPSG:", name);
      if has.None? then Raised
      else if !has.value then FallThrough
      else if name.JStr? then Found(SplitLast(name.s, "EPSG:"))
      else Raised
  }

  /** The `type == 'link'` branch. */
  function LinkStep(crs: map<string, Json>): Step
  {
    var props := PropsOf(crs);
    if props.None? then Raised
    else
      var href := GetOr(props.value, "href", JStr(""));
      var io := PyIn("epsg.io", href);
      var cond := if io.Some? && !io.value then PyIn("EPSG:", href) else io;
      if cond.None? then Raised
      else if !cond.value then FallThrough
      else if !href.JStr? then Raised
      else
        var m := EpsgSearch(href.s);
        if m.Some? then Found(m.value) else FallThrough
  }

  function CrsStep(crs: Json): Step
  {
    if !Truthy(crs) then FallThrough
    else if !crs.JObj? then Raised
    else
      var t := GetOr(crs.fields, "type", JNull);
      if t == JStr("name") then NameStep(crs.fields)
      else if t == JStr("link") then LinkStep(crs.fields)
      else FallThrough
  }

  /** `_detect_geojson_epsg(geojson_data)`; `authority` is OSR's
      `GetAuthorityCode` of a WKT value, None when OSR raises or finds none. */
  function DetectEpsg(data: Json, authority: Json -> Option<string>): (code: string)
  {
    if !data.JObj? then DEFAULT_EPSG
    else
      var step := CrsStep(GetOr(data.fields, "crs", JNull));
      if step.Found? then step.code
      else if step.Raised? then DEFAULT_EPSG
      else
        var wkt := GetOr(data.fields, "crs_wkt", JNull);
        if !Truthy(wkt) then DEFAULT_EPSG
        else
          var a := authority(wkt);
          if a.Some? && a.value != "" then a.value else DEFAULT_EPSG
  }

  /** The crs member of a dict, when it is itself a dict. */
  function CrsOf(data: Json): Option<map<string, Json>>
  {
    if data.JObj? && "crs" in data.fields && data.fields["crs"].JObj? then Some(data.fields["crs"].fields)
    else None
  }

  /** `crs['properties'][key]` of a crs of the given type, when it is a string. */
  function CrsText(data: Json, crsType: string, key: string): Option<string>
  {
    var crs := CrsOf(data);
    if crs.None? || GetOr(crs.value, "type", JNull) != JStr(crsType) then None
    else
      var props := PropsOf(crs.value);
      if props.None? || key !in props.value || !props.value[key].JStr? then None
      else Some(props.value[key].s)
  }

  /** The `if crs:` block of a `name` crs with a string name. */
  lemma NameCrsStep(data: Json, name: string)
    requires CrsText(data, "name", "name") == Some(name)
    ensures data.JObj? && "crs" in data.fields
    ensures CrsStep(data.fields["crs"]) == if Contains(name, "EPSG:") then Found(SplitLast(name, "EPSG:")) else FallThrough
  {
    var crs := data.fields["crs"];
    assert "type" in crs.fields;
    assert CrsOf(data) == Some(crs.fields);
    var props := PropsOf(crs.fields).value;
    assert "name" in props && props["name"] == JStr(name);
  }

  /** The `if crs:` block of a `link` crs with a string href. */
  lemma LinkCrsStep(data: Json, href: string)
    requires CrsText(data, "link", "href") == Some(href)
    ensures data.JObj? && "crs" in data.fields
    ensures CrsStep(data.fields["crs"]) ==
      if (Contains(href, "epsg.io") || Contains(href, "EPSG:")) && EpsgSearch(href).Some?
      then Found(EpsgSearch(href).value) else FallThrough
  {
    var crs := data.fields["crs"];
    assert "type" in crs.fields;
    assert "link" != "name" by { assert "link"[0] != "name"[0]; }
    assert CrsOf(data) == Some(crs.fields);
    var props := PropsOf(crs.fields).value;
    assert "href" in props && props["href"] == JStr(href);
  }

  /** A code found in the crs member is the result. */
  lemma DetectFound(data: Json, authority: Json -> Option<string>, code: string)
    requires data.JObj? && "crs" in data.fields && CrsStep(data.fields["crs"]) == Found(code)
    ensures DetectEpsg(data, authority) == code
  {
  }

  /** A `name` crs holding "EPSG:" gives the text after its last "EPSG:",
      which itself holds no "EPSG:". */
  lemma EpsgFromName(data: Json, authority: Json -> Option<string>, name: string)
    requires CrsText(data, "name", "name") == Some(name) && Contains(name, "EPSG:")
    ensures var code := DetectEpsg(data, authority);
      && code == SplitLast(name, "EPSG:") && !Contains(code, "EPSG:")
      && |code| + 5 <= |name| && name[|name| - |code| - 5..] == "EPSG:" + code
  {
    NameCrsStep(data, name);
    var code := SplitLast(name, "EPSG:");
    DetectFound(data, authority, code);
    SplitLastSuffix(name, "EPSG:");
    SplitLastAfterSep(name, "EPSG:");
    assert name[|name| - |code| - 5..] == name[|name| - |code| - 5..|name| - |code|] + name[|name| - |code|..];
  }

  /** A `name` crs without "EPSG:" falls through to the WKT check. */
  lemma NameWithoutEpsg(data: Json, name: string)
    requires CrsText(data, "name", "name") == Some(name) && !Contains(name, "EPSG:")
    ensures "crs" in data.fields && CrsStep(data.fields["crs"]) == FallThrough
  {
    NameCrsStep(data, name);
  }

  /** A `link` crs mentioning epsg.io or "EPSG:" gives the digits of the
      leftmost `EPSG:?(\d+)` match. */
  lemma EpsgFromLink(data: Json, authority: Json -> Option<string>, href: string)
    requires CrsText(data, "link", "href") == Some(href)
    requires Contains(href, "epsg.io") || Contains(href, "EPSG:")
    requires EpsgSearch(href).Some?
    ensures var code := DetectEpsg(data, authority);
      && code == EpsgSearch(href).value && |code| > 0 && AllDigits(code)
      && exists p: nat :: CodeAt(href, p) == Some(code) && forall j: nat :: j < p ==> CodeAt(href, j).None?
  {
    LinkCrsStep(data, href);
    DetectFound(data, authority, EpsgSearch(href).value);
    SearchLeftmost(href, 0);
  }

  /** A `link` crs whose text has no upper-case "EPSG" falls through, and
      with no WKT member the result is the default. */
  lemma LinkWithoutEpsg(data: Json, authority: Json -> Option<string>, href: string)
    requires CrsText(data, "link", "href") == Some(href) && !Contains(href, "EPSG")
    requires "crs_wkt" !in data.fields
    ensures "crs" in data.fields && CrsStep(data.fields["crs"]) == FallThrough
    ensures DetectEpsg(data, authority) == DEFAULT_EPSG
  {
    SearchNeedsEpsg(href);
    LinkCrsStep(data, href);
  }

  /** With neither a crs nor a WKT member the result is 4326, and so it is
      for a value that is not a dict. */
  lemma EpsgDefault(data: Json, authority: Json -> Option<string>)
    requires !data.JObj? || ("crs" !in data.fields && "crs_wkt" !in data.fields)
    ensures DetectEpsg(data, authority) == DEFAULT_EPSG
  {
  }

  /** A WKT member is consulted only when the crs block falls through, and
      then its non-empty authority code is the result. */
  lemma EpsgFromWkt(data: Json, authority: Json -> Option<string>)
    requires data.JObj? && CrsStep(GetOr(data.fields, "crs", JNull)) == FallThrough
    requires "crs_wkt" in data.fields && Truthy(data.fields["crs_wkt"])
    ensures var a := authority(data.fields["crs_wkt"]);
      DetectEpsg(data, authority) == if a.Some? && a.value != "" then a.value else DEFAULT_EPSG
  {
  }
}
