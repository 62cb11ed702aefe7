/** `handle_poi_result` (overviewer_core/aux_files/genPOI.py lines 262-297):
    turns a POI and the value a marker set's filter function returned for it
    into the marker record written to markersDB.js, or into nothing.

    Two versions are given. `HandlePoiResultAsWritten` keeps the source's
    `'icon' in filter_result` test on every kind of result, which is a
    substring test on strings, an element test on tuples and lists and a
    TypeError on numbers and booleans; `HandlePoiResult` consults the filter
    result's icon only when the result is a dict, and is the one the rest of
    the model uses. */
module Markers {
  import opened PyValue

  /** One point of a polyline: the `{x, y, z}` a polyline entry is reduced to. */
  datatype Point = Point(x: Value, y: Value, z: Value)

  /** A markersDB record. The optional fields are keys that may be absent. */
  datatype Marker = Marker(
    x: Value, y: Value, z: Value,
    text: Option<Value>,
    hovertext: Option<Value>,
    polyline: Option<seq<Point>>,
    strokeColor: Option<string>,
    icon: Option<Value>,
    createInfoWindow: Option<Value>)

  /** `poi[key] if key in poi else poi['Pos'][i]`. */
  function Coord(poi: Poi, key: string, i: nat): (r: Result<Value, Error>)
    ensures key in poi ==> r == Ok(poi[key])
    ensures r.Ok? <==> key in poi || ("Pos" in poi && Index(poi["Pos"], i).Ok?)
    ensures r.Ok? && key !in poi ==> Index(poi["Pos"], i) == r
    ensures r.Err? ==> r.error == KeyError || r.error == IndexError || r.error == TypeError
  {
    if key in poi then Ok(poi[key])
    else if "Pos" in poi then Index(poi["Pos"], i)
    else Err(KeyError)
  }

  /** The record's position, x then y then z. */
  function Position(poi: Poi): (r: Result<(Value, Value, Value), Error>)
    ensures r.Ok? <==> Coord(poi, "x", 0).Ok? && Coord(poi, "y", 1).Ok? && Coord(poi, "z", 2).Ok?
    ensures r.Ok? ==> r.value == (Coord(poi, "x", 0).value, Coord(poi, "y", 1).value, Coord(poi, "z", 2).value)
  {
    var x :- Coord(poi, "x", 0);
    var y :- Coord(poi, "y", 1);
    var z :- Coord(poi, "z", 2);
    Ok((x, y, z))
  }

  /** `{'x': point['x'], 'y': point['y'], 'z': point['z']}`. */
  function PointOf(point: Value): (r: Result<Point, Error>)
    ensures r.Ok? <==> point.Dict? && "x" in point.entries && "y" in point.entries && "z" in point.entries
    ensures r.Ok? ==> r.value == Point(point.entries["x"], point.entries["y"], point.entries["z"])
    ensures r.Err? ==> r.error == (if point.Dict? then KeyError else TypeError)
  {
    var x :- Lookup(point, "x");
    var y :- Lookup(point, "y");
    var z :- Lookup(point, "z");
    Ok(Point(x, y, z))
  }

  /** The list comprehension over a polyline tuple: each entry reduced to a
      point, same length and same order; the first bad entry's error otherwise. */
  function PolylineOf(points: seq<Value>): (r: Result<seq<Point>, Error>)
    ensures r.Ok? <==> forall i :: 0 <= i < |points| ==> PointOf(points[i]).Ok?
    ensures r.Ok? ==> |r.value| == |points|
    ensures r.Ok? ==> forall i :: 0 <= i < |points| ==> PointOf(points[i]) == Ok(r.value[i])
    ensures r.Err? ==> exists i :: 0 <= i < |points| && PointOf(points[i]) == Err(r.error)
  {
    if points == [] then Ok([])
    else
      var p :- PointOf(points[0]);
      var rest :- PolylineOf(points[1..]);
      assert forall i :: 1 <= i < |points| ==> points[i] == points[1..][i - 1];
      Ok([p] + rest)
  }

  /** The record as it stands after the type dispatch of lines 270-290, before
      the icon and createInfoWindow keys are considered. */
  function BaseRecord(poi: Poi, fr: Value): (r: Result<Marker, Error>)
    ensures Position(poi).Err? ==> r == Err(Position(poi).error)
    ensures r.Ok? ==> Position(poi) == Ok((r.value.x, r.value.y, r.value.z))
    ensures r.Ok? ==> r.value.icon.None? && r.value.createInfoWindow.None?
  {
    var (x, y, z) :- Position(poi);
    var none := Marker(x, y, z, None, None, None, None, None, None);
    match fr
    case Str(s) => Ok(none.(text := Some(fr), hovertext := Some(fr)))
    case Tuple(items) =>
      if |items| != 2 then Err(ValueError)
      else Ok(none.(hovertext := Some(items[0]), text := Some(items[1])))
    case Dict(m) =>
      if "text" !in m then Err(KeyError)
      else
        var text := m["text"];
        var hover := if "hovertext" in m && m["hovertext"].Str? then m["hovertext"] else text;
        var rec := none.(text := Some(text), hovertext := Some(hover));
        if "polyline" in m && m["polyline"].Tuple? then
          var line :- PolylineOf(m["polyline"].items);
          if "color" !in m then Err(KeyError)
          else
            var color := if m["color"].Str? then Some(m["color"].s) else None;
            Ok(rec.(polyline := Some(line), strokeColor := color))
        else Ok(rec)
    case _ => Ok(none)
  }

  /** Lines 293-296: the POI's own icon when the result gave none, and the
      POI's createInfoWindow copied verbatim. */
  function PoiKeys(poi: Poi, rec: Marker, resultIcon: Option<Value>): (r: Marker)
    ensures r.(icon := rec.icon, createInfoWindow := rec.createInfoWindow) == rec
    ensures resultIcon.Some? ==> r.icon == resultIcon
    ensures resultIcon.None? ==> (r.icon.Some? <==> "icon" in poi) && (r.icon.Some? ==> r.icon.value == poi["icon"])
    ensures r.createInfoWindow.Some? <==> "createInfoWindow" in poi
    ensures r.createInfoWindow.Some? ==> r.createInfoWindow.value == poi["createInfoWindow"]
  {
    rec.(icon := if resultIcon.Some? then resultIcon else if "icon" in poi then Some(poi["icon"]) else None,
         createInfoWindow := if "createInfoWindow" in poi then Some(poi["createInfoWindow"]) else None)
  }

  /** `'icon' in filter_result` exactly as Python evaluates it. */
  function IconTest(fr: Value): (r: Result<bool, Error>)
    ensures r.Err? <==> !(fr.Str? || fr.Tuple? || fr.List? || fr.Dict?)
    ensures r.Err? ==> r.error == TypeError
    ensures fr.Dict? ==> r == Ok("icon" in fr.entries)
    ensures fr.Str? ==> r == Ok(HasSubstring(fr.s, "icon"))
  {
    match fr
    case Str(s) => Ok(HasSubstring(s, "icon"))
    case Tuple(items) => Ok(Str("icon") in items)
    case List(items) => Ok(Str("icon") in items)
    case Dict(m) => Ok("icon" in m)
    case _ => Err(TypeError)
  }

  /** handle_poi_result as written: after a true `'icon' in filter_result`
      test, `filter_result['icon']` is a TypeError unless the result is a dict. */
  function HandlePoiResultAsWritten(poi: Poi, fr: Value): (r: Result<Option<Marker>, Error>)
    ensures fr.Dict? || !Truthy(fr) ==> r == HandlePoiResult(poi, fr)
    ensures Truthy(fr) && BaseRecord(poi, fr).Ok? && !(fr.Str? || fr.Tuple? || fr.List? || fr.Dict?) ==> r == Err(TypeError)
    ensures Truthy(fr) && BaseRecord(poi, fr).Ok? && fr.Str? && HasSubstring(fr.s, "icon") ==> r == Err(TypeError)
  {
    if !Truthy(fr) then Ok(None)
    else
      var rec :- BaseRecord(poi, fr);
      var hasIcon :- IconTest(fr);
      if hasIcon then
        var icon :- Lookup(fr, "icon");
        Ok(Some(PoiKeys(poi, rec, Some(icon))))
      else Ok(Some(PoiKeys(poi, rec, None)))
  }

  /** handle_poi_result with the filter-result icon taken from dict results only. */
  function HandlePoiResult(poi: Poi, fr: Value): (r: Result<Option<Marker>, Error>)
    // a falsy filter result, and only that, gives no record
    ensures r == Ok(None) <==> !Truthy(fr)
  {
    if !Truthy(fr) then Ok(None)
    else
      var rec :- BaseRecord(poi, fr);
      var resultIcon := if fr.Dict? && "icon" in fr.entries then Some(fr.entries["icon"]) else None;
      Ok(Some(PoiKeys(poi, rec, resultIcon)))
  }

  /** The record's position: each of x, y and z is the POI's key of that
      name when present, else the matching item of its Pos; a POI that lacks a
      coordinate and has no Pos is a KeyError, and any other failure is the
      failing lookup's error. */
  lemma RecordPosition(poi: Poi, fr: Value, r: Result<Option<Marker>, Error>)
    requires r == HandlePoiResult(poi, fr)
    ensures r.Ok? && r.value.Some? ==>
      var m := r.value.value;
      && (if "x" in poi then m.x == poi["x"] else "Pos" in poi && Index(poi["Pos"], 0) == Ok(m.x))
      && (if "y" in poi then m.y == poi["y"] else "Pos" in poi && Index(poi["Pos"], 1) == Ok(m.y))
      && (if "z" in poi then m.z == poi["z"] else "Pos" in poi && Index(poi["Pos"], 2) == Ok(m.z))
    ensures Truthy(fr) && ("x" !in poi || "y" !in poi || "z" !in poi) && "Pos" !in poi ==> r == Err(KeyError)
    ensures Truthy(fr) && Position(poi).Err? ==> r == Err(Position(poi).error)
  {
  }

  /** A string result is both text and hover text, and cannot fail once the
      POI is positioned. */
  lemma StringResult(poi: Poi, fr: Value, r: Result<Option<Marker>, Error>)
    requires r == HandlePoiResult(poi, fr)
    requires fr.Str?
    ensures Truthy(fr) && Position(poi).Ok? ==> r.Ok? && r.value.Some?
    ensures r.Ok? && r.value.Some? ==>
      r.value.value.text == Some(fr) && r.value.value.hovertext == Some(fr) &&
      r.value.value.polyline.None? && r.value.value.strokeColor.None?
  {
  }

  /** A tuple result must be a pair (hover text, text). */
  lemma TupleResult(poi: Poi, fr: Value, r: Result<Option<Marker>, Error>)
    requires r == HandlePoiResult(poi, fr)
    requires fr.Tuple?
    ensures Truthy(fr) && Position(poi).Ok? ==>
      (r.Ok? <==> |fr.items| == 2) && (r.Err? ==> r.error == ValueError)
    ensures r.Ok? && r.value.Some? ==>
      r.value.value.hovertext == Some(fr.items[0]) && r.value.value.text == Some(fr.items[1]) &&
      r.value.value.polyline.None? && r.value.value.strokeColor.None?
  {
  }

  /** A dict result must have 'text'; the hover text is 'hovertext' only when
      that is a string. A tuple 'polyline' becomes the polyline point by point
      and then 'color' is required; a list 'polyline' is ignored; a stroke
      colour only comes from a string 'color'. */
  lemma DictResult(poi: Poi, fr: Value, r: Result<Option<Marker>, Error>)
    requires r == HandlePoiResult(poi, fr)
    requires fr.Dict? && Truthy(fr)
    ensures BaseRecord(poi, fr).Err? ==> r.Err?
    ensures Position(poi).Ok? && "text" !in fr.entries ==> r == Err(KeyError)
    ensures r.Ok? && r.value.Some? ==>
      "text" in fr.entries && r.value.value.text == Some(fr.entries["text"]) &&
      r.value.value.hovertext == Some(
        if "hovertext" in fr.entries && fr.entries["hovertext"].Str?
        then fr.entries["hovertext"] else fr.entries["text"])
    ensures r.Ok? && r.value.Some? ==>
      (r.value.value.polyline.Some? <==> "polyline" in fr.entries && fr.entries["polyline"].Tuple?)
    ensures r.Ok? && r.value.Some? && r.value.value.polyline.Some? ==>
      PolylineOf(fr.entries["polyline"].items) == Ok(r.value.value.polyline.value) &&
      "color" in fr.entries &&
      (r.value.value.strokeColor.Some? <==> fr.entries["color"].Str?) &&
      (r.value.value.strokeColor.Some? ==> r.value.value.strokeColor.value == fr.entries["color"].s)
    ensures r.Ok? && r.value.Some? && r.value.value.polyline.None? ==> r.value.value.strokeColor.None?
    ensures (Position(poi).Ok? && "text" in fr.entries &&
             "polyline" in fr.entries && fr.entries["polyline"].Tuple? &&
             PolylineOf(fr.entries["polyline"].items).Ok? && "color" !in fr.entries)
            ==> r == Err(KeyError)
  {
  }

  /** Any other truthy result carries the position (and icon) only. */
  lemma OtherResult(poi: Poi, fr: Value, r: Result<Option<Marker>, Error>)
    requires r == HandlePoiResult(poi, fr)
    requires !(fr.Str? || fr.Tuple? || fr.Dict?)
    ensures Truthy(fr) && Position(poi).Ok? ==> r.Ok? && r.value.Some?
    ensures r.Ok? && r.value.Some? ==>
      r.value.value.text.None? && r.value.value.hovertext.None? &&
      r.value.value.polyline.None? && r.value.value.strokeColor.None?
  {
  }

  /** The result's icon wins over the POI's; createInfoWindow comes from the
      POI. */
  lemma RecordIcon(poi: Poi, fr: Value, r: Result<Option<Marker>, Error>)
    requires r == HandlePoiResult(poi, fr)
    requires r.Ok? && r.value.Some?
    ensures r.value.value.icon ==
      (if fr.Dict? && "icon" in fr.entries then Some(fr.entries["icon"])
       else if "icon" in poi then Some(poi["icon"]) else None)
    ensures r.value.value.createInfoWindow ==
      (if "createInfoWindow" in poi then Some(poi["createInfoWindow"]) else None)
  {
  }

  /** The discrepancy: a string filter result that mentions "icon" (say the
      sign text "icon") crashes the source with a TypeError, where the intended
      behaviour is a record showing that text. */
  lemma StringMentioningIconCrashes()
    ensures var poi := map["x" := Int(1), "y" := Int(64), "z" := Int(-3)];
      && HandlePoiResultAsWritten(poi, Str("my icon")) == Err(TypeError)
      && HandlePoiResult(poi, Str("my icon")).Ok?
      && HandlePoiResult(poi, Str("my icon")).value.Some?
      && HandlePoiResult(poi, Str("my icon")).value.value.text == Some(Str("my icon"))
  {
    var poi := map["x" := Int(1), "y" := Int(64), "z" := Int(-3)];
    assert "my icon"[3..7] == "icon";
    HasSubstringAt("my icon", "icon", 3);
    assert Position(poi).Ok?;
  }
}
