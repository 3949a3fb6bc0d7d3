/** The station marker manager (src/modules/FloodControl/StationMarker.ts): one map entity per
    station, a hover reference that enlarges the point under the pointer, click-to-describe,
    show/hide filters and clearing. The renderer is reduced to what the manager observes: the
    viewer's entity collection, its selected entity, its cursor and the camera requests made. */
module StationMarker {
  import opened Wrappers
  import opened SimData

  // ---------------------------------------------------------------------------------------------
  // Tables

  /** The point colours: Cesium's RED and YELLOW, and `fromCssColorString('#00FF00')`. */
  datatype PointColor = Red | Yellow | Green

  /** getStatusColor. */
  function StatusColor(status: string): (c: PointColor)
    ensures c == Red <==> status == "danger"
    ensures c == Yellow <==> status == "warning"
  {
    if status == "danger" then Red else if status == "warning" then Yellow else Green
  }

  /** getStatusHtmlColor. */
  function StatusHtmlColor(status: string): (c: string)
    ensures c == "#ff0000" <==> status == "danger"
    ensures c == "#ffff00" <==> status == "warning"
    ensures c == "#00ff00" <==> status != "danger" && status != "warning"
  {
    if status == "danger" then "#ff0000" else if status == "warning" then "#ffff00" else "#00ff00"
  }

  /** The CSS spelling of a point colour. */
  function Css(c: PointColor): string {
    match c
    case Red => "#ff0000"
    case Yellow => "#ffff00"
    case Green => "#00ff00"
  }

  /** The map point and the detail panel colour a status identically. */
  lemma StatusColorsAgree(status: string)
    ensures Css(StatusColor(status)) == StatusHtmlColor(status)
  {
  }

  /** getTypeIcon. */
  function TypeIcon(kind: string): (icon: string)
    ensures kind !in StationKinds ==> icon == "📍"
  {
    if kind == "reservoir" then "🏊"
    else if kind == "hydrological" then "📊"
    else if kind == "rain" then "🌧️"
    else "📍"
  }

  /** The three station kinds have three different icons, none of them the fallback pin. */
  lemma TypeIconsDistinct()
    ensures TypeIcon("reservoir") != TypeIcon("hydrological") && TypeIcon("hydrological") != TypeIcon("rain")
    ensures TypeIcon("rain") != TypeIcon("reservoir")
    ensures forall k :: k in StationKinds ==> TypeIcon(k) != "📍"
  {
  }

  // ---------------------------------------------------------------------------------------------
  // The detail panel (showStationInfo), as rows rather than HTML

  /** A table cell: a reading with its unit (None prints `undefined`), or a text. */
  datatype Cell = Reading(value: Option<real>, unit: string) | Text(text: string)

  /** A row: its caption, its cell and the colour the cell is styled with, if any. */
  datatype Row = Row(caption: string, cell: Cell, color: Option<string>)

  /** The heading (the name), the note under it (`description || ''`) and the table rows. */
  datatype Panel = Panel(title: string, note: string, rows: seq<Row>)

  function ReservoirStatusText(status: string): string {
    if status == "danger" then "⚠️ 超保证" else if status == "warning" then "⚡ 超警戒" else "✅ 正常"
  }

  function RainfallColor(rainfall: Option<real>): string {
    if rainfall.Some? && rainfall.value > 20.0 then "#ffff00" else "#00ff00"
  }

  function PanelRows(s: Station): seq<Row> {
    if s.kind == "reservoir" then
      [Row("当前水位:", Reading(s.waterLevel, "m"), Some(StatusHtmlColor(s.status))),
       Row("警戒水位:", Reading(s.warningLevel, "m"), None),
       Row("保证水位:", Reading(s.guaranteeLevel, "m"), None),
       Row("总库容:", Reading(None, ""), None),
       Row("入库流量:", Reading(s.inflow, "m³/s"), None),
       Row("出库流量:", Reading(s.outflow, "m³/s"), None),
       Row("运行状态:", Text(ReservoirStatusText(s.status)), None)]
    else if s.kind == "hydrological" then
      [Row("当前水位:", Reading(s.waterLevel, "m"), Some(StatusHtmlColor(s.status))),
       Row("警戒水位:", Reading(s.warningLevel, "m"), None),
       Row("状态:", Text(if s.status == "warning" then "⚡ 偏高" else "✅ 正常"), None)]
    else if s.kind == "rain" then
      [Row("今日降雨:", Reading(s.rainfall, "mm"), Some(RainfallColor(s.rainfall))),
       Row("累计降雨:", Reading(s.rainfallTotal, "mm"), None),
       Row("状态:", Text(if s.status == "warning" then "🌧️ 降雨偏多" else "✅ 正常"), None)]
    else []
  }

  function StationPanel(s: Station): Panel {
    Panel(s.name, if s.description.Some? then s.description.value else "", PanelRows(s))
  }

  /** The reservoir panel: seven rows, the water level coloured by status, the status text
      超保证 / 超警戒 / 正常 for danger / warning / anything else, and the capacity row always
      without a value, since a station record has no capacity. */
  lemma ReservoirPanel(s: Station)
    requires s.kind == "reservoir"
    ensures var rows := StationPanel(s).rows;
      && |rows| == 7
      && rows[0] == Row("当前水位:", Reading(s.waterLevel, "m"), Some(StatusHtmlColor(s.status)))
      && rows[3].cell == Reading(None, "")
      && (rows[6].cell == Text("⚠️ 超保证") <==> s.status == "danger")
      && (rows[6].cell == Text("⚡ 超警戒") <==> s.status == "warning")
      && (rows[6].cell == Text("✅ 正常") <==> s.status != "danger" && s.status != "warning")
  {
  }

  /** The hydrological panel flags only 'warning': a station in danger reads 正常. */
  lemma HydrologicalPanel(s: Station)
    requires s.kind == "hydrological"
    ensures var rows := StationPanel(s).rows;
      && |rows| == 3
      && (rows[2].cell == Text("⚡ 偏高") <==> s.status == "warning")
      && (s.status == "danger" ==> rows[2].cell == Text("✅ 正常"))
  {
  }

  /** The rain panel colours today's rainfall yellow exactly when it is above 20 mm; a missing
      value compares false and stays green. */
  lemma RainPanel(s: Station)
    requires s.kind == "rain"
    ensures var rows := StationPanel(s).rows;
      && |rows| == 3
      && (rows[0].color == Some("#ffff00") <==> s.rainfall.Some? && s.rainfall.value > 20.0)
      && (rows[0].color == Some("#00ff00") <==> !(s.rainfall.Some? && s.rainfall.value > 20.0))
      && (rows[2].cell == Text("🌧️ 降雨偏多") <==> s.status == "warning")
  {
  }

  /** Any other kind gets only its name and note. */
  lemma OtherKindPanel(s: Station)
    requires s.kind !in StationKinds
    ensures StationPanel(s).rows == []
    ensures StationPanel(s).title == s.name
  {
  }

  // ---------------------------------------------------------------------------------------------
  // Entities and the viewer

  /** A map entity: ours carry a station as their properties; others may be in the viewer too. */
  class Entity {
    const id: string
    const labelText: string
    const hasPoint: bool
    const color: PointColor
    const properties: Option<Station>
    var show: bool
    var pixelSize: nat
    var description: Option<Panel>

    constructor (id: string, labelText: string, hasPoint: bool, color: PointColor,
                 properties: Option<Station>, pixelSize: nat)
      ensures this.id == id && this.labelText == labelText && this.hasPoint == hasPoint
      ensures this.color == color && this.properties == properties
      ensures this.pixelSize == pixelSize && show && description.None?
    {
      this.id := id;
      this.labelText := labelText;
      this.hasPoint := hasPoint;
      this.color := color;
      this.properties := properties;
      this.pixelSize := pixelSize;
      show := true;
      description := None;
    }
  }

  datatype Cursor = Default | Pointer

  /** A camera request issued to the viewer. */
  datatype CameraRequest = FlyToEntity(target: Entity)

  /** The part of the Cesium viewer the manager observes and changes. */
  class Viewer {
    var collection: seq<Entity>
    var selected: Entity?
    var cursor: Cursor
    var requests: seq<CameraRequest>

    constructor ()
      ensures collection == [] && selected == null && cursor == Default && requests == []
    {
      collection := [];
      selected := null;
      cursor := Default;
      requests := [];
    }
  }

  /** What `scene.pick` returns: nothing, an object that is no entity, or an entity. */
  datatype Pick = Nothing | Primitive | Picked(entity: Entity)

  /** The pick is an entity with a point: the move handler's hover condition. */
  predicate HitsPoint(p: Pick) {
    p.Picked? && p.entity.hasPoint
  }

  function PickedSet(p: Pick): set<object> {
    if p.Picked? then {p.entity} else {}
  }

  function Without(xs: seq<Entity>, e: Entity): (r: seq<Entity>)
    ensures forall i :: 0 <= i < |r| ==> r[i] in xs && r[i] != e
    ensures forall i :: 0 <= i < |xs| && xs[i] != e ==> xs[i] in r
  {
    if xs == [] then []
    else if xs[0] == e then Without(xs[1..], e)
    else [xs[0]] + Without(xs[1..], e)
  }

  /** The ids of a list of entities. */
  function Ids(es: seq<Entity>): set<string> {
    set e | e in es :: e.id
  }

  lemma IdsAppend(es: seq<Entity>, e: Entity)
    ensures Ids(es + [e]) == Ids(es) + {e.id}
  {
  }

  /** The message of Cesium's RuntimeError for an id already in the collection. */
  function DuplicateIdMessage(id: string): string {
    "An entity with id " + id + " already exists in this collection."
  }

  /** How many of `stations` are added, one by one, to a collection holding the ids `taken`
      before one of them clashes: with an id already taken, or with an earlier station's id. */
  function AddedBeforeClash(taken: set<string>, stations: seq<Station>): (n: nat)
    ensures n <= |stations|
    decreases |stations|
  {
    if stations == [] || stations[0].id in taken then 0
    else 1 + AddedBeforeClash(taken + {stations[0].id}, stations[1..])
  }

  /** The stations added before the clash have ids that are new and pairwise distinct, and the
      station at the clash, if any, repeats a taken id or an earlier station's id. */
  lemma {:induction false} AddedBeforeClashMeaning(taken: set<string>, stations: seq<Station>)
    ensures var n := AddedBeforeClash(taken, stations);
      && (forall i :: 0 <= i < n ==> stations[i].id !in taken)
      && (forall i, j :: 0 <= i < j < n ==> stations[i].id != stations[j].id)
      && (n < |stations| ==> stations[n].id in taken || exists i :: 0 <= i < n && stations[i].id == stations[n].id)
    decreases |stations|
  {
    if stations != [] && stations[0].id !in taken {
      var rest := stations[1..];
      AddedBeforeClashMeaning(taken + {stations[0].id}, rest);
      assert forall i :: 1 <= i < |stations| ==> stations[i] == rest[i - 1];
    }
  }

  lemma AddedBeforeClashStep(taken: set<string>, stations: seq<Station>)
    requires stations != []
    ensures AddedBeforeClash(taken, stations) ==
      if stations[0].id in taken then 0 else 1 + AddedBeforeClash(taken + {stations[0].id}, stations[1..])
  {
  }

  /** `e` is the marker addStation made for `station`. */
  predicate MarkerOf(e: Entity, station: Station)
    reads e
  {
    && e.id == station.id && e.labelText == station.name && e.pixelSize == 12 && e.show && e.hasPoint
    && e.color == StatusColor(station.status) && e.properties == Some(station)
  }

  // ---------------------------------------------------------------------------------------------
  // The manager

  class StationMarkerManager {
    const viewer: Viewer
    var entities: seq<Entity>
    /** The hover reference. */
    var selectedEntity: Entity?
    /** Every entity whose point size this manager has set. */
    ghost var touched: set<Entity>

    /** Our entities have distinct ids, carry their station and are in the viewer; the viewer
        holds at most one entity per id; and of all the entities the manager has sized, exactly
        the hover reference is at 18 pixels and every other one at 12. */
    ghost predicate Valid()
      reads this, viewer, touched
    {
      && (forall i, j :: 0 <= i < j < |entities| ==> entities[i].id != entities[j].id)
      && (forall e :: e in entities ==>
            e in touched && e in viewer.collection && e.hasPoint
            && e.properties.Some? && e.properties.value.id == e.id)
      && (forall a, b :: a in viewer.collection && b in viewer.collection && a.id == b.id ==> a == b)
      && (selectedEntity != null ==> selectedEntity in touched && selectedEntity.hasPoint)
      && (forall e :: e in touched ==> e.pixelSize == if e == selectedEntity then 18 else 12)
    }

    constructor (viewer: Viewer)
      requires forall a, b :: a in viewer.collection && b in viewer.collection && a.id == b.id ==> a == b
      ensures Valid()
      ensures this.viewer == viewer && entities == [] && selectedEntity == null
    {
      this.viewer := viewer;
      entities := [];
      selectedEntity := null;
      touched := {};
    }

    /** With the invariant, at most one sized entity is enlarged, and it is the hover reference. */
    lemma AtMostOneEnlarged()
      requires Valid()
      ensures forall a, b :: a in touched && b in touched && a.pixelSize == 18 && b.pixelSize == 18 ==> a == b
      ensures forall a :: a in touched && a.pixelSize == 18 ==> a == selectedEntity
    {
    }

    /** addStation: a point entity of size 12 labelled with the station name, coloured by status
        and carrying the station, appended to the list. Cesium's `entities.add` throws when the
        viewer already holds an entity with that id; then nothing is added and the error is
        returned. */
    method AddStation(station: Station) returns (r: Result<Entity, string>)
      requires Valid()
      modifies this, viewer
      ensures Valid()
      ensures r.Ok? <==> station.id !in Ids(old(viewer.collection))
      ensures r.Ok? ==>
        && entities == old(entities) + [r.value]
        && viewer.collection == old(viewer.collection) + [r.value]
        && fresh(r.value) && r.value.id == station.id && r.value.labelText == station.name
        && r.value.pixelSize == 12 && r.value.show && r.value.hasPoint
        && r.value.color == StatusColor(station.status) && r.value.properties == Some(station)
      ensures r.Err? ==>
        && r.error == DuplicateIdMessage(station.id)
        && entities == old(entities) && viewer.collection == old(viewer.collection)
      ensures selectedEntity == old(selectedEntity)
      ensures viewer.selected == old(viewer.selected) && viewer.cursor == old(viewer.cursor)
      ensures viewer.requests == old(viewer.requests)
    {
      var color := StatusColor(station.status);
      // The icon is computed but never attached to the entity.
      var icon := TypeIcon(station.kind);
      if exists x :: x in viewer.collection && x.id == station.id {
        return Err(DuplicateIdMessage(station.id));
      }
      var entity := new Entity(station.id, station.name, true, color, Some(station), 12);
      viewer.collection := viewer.collection + [entity];
      entities := entities + [entity];
      touched := touched + {entity};
      r := Ok(entity);
    }

    /** addAllStations: addStation for each station in order. A clashing id throws out of the
        `forEach`, so the stations before the first clash are added and the rest are not. */
    method AddAllStations(stations: seq<Station>) returns (r: Result<(), string>)
      requires Valid()
      modifies this, viewer
      ensures Valid()
      ensures var n := AddedBeforeClash(Ids(old(viewer.collection)), stations);
        && (r.Ok? <==> n == |stations|)
        && (r.Err? ==> n < |stations| && r.error == DuplicateIdMessage(stations[n].id))
        && |entities| == |old(entities)| + n && entities[..|old(entities)|] == old(entities)
        && (forall i :: 0 <= i < n ==> MarkerOf(entities[|old(entities)| + i], stations[i]))
      ensures forall i :: |old(entities)| <= i < |entities| ==> fresh(entities[i])
      ensures selectedEntity == old(selectedEntity)
      ensures viewer.selected == old(viewer.selected) && viewer.cursor == old(viewer.cursor)
      ensures viewer.requests == old(viewer.requests)
    {
      ghost var taken := Ids(old(viewer.collection));
      ghost var n := 0;
      var i := 0;
      r := Ok(());
      while i < |stations| && r.Ok?
        invariant 0 <= n <= i <= |stations|
        invariant Valid()
        invariant r.Ok? ==> n == i && AddedBeforeClash(taken, stations) == i + AddedBeforeClash(Ids(viewer.collection), stations[i..])
        invariant r.Err? ==> n < |stations| && AddedBeforeClash(taken, stations) == n && r.error == DuplicateIdMessage(stations[n].id)
        invariant |entities| == |old(entities)| + n && entities[..|old(entities)|] == old(entities)
        invariant forall j :: 0 <= j < n ==> MarkerOf(entities[|old(entities)| + j], stations[j])
        invariant forall j :: |old(entities)| <= j < |entities| ==> fresh(entities[j])
        invariant selectedEntity == old(selectedEntity)
        invariant viewer.selected == old(viewer.selected) && viewer.cursor == old(viewer.cursor)
        invariant viewer.requests == old(viewer.requests)
      {
        ghost var before := entities;
        r := AddNext(stations, i, taken);
        if r.Ok? {
          ghost var e :| entities == before + [e] && fresh(e) && MarkerOf(e, stations[i]);
          forall j | 0 <= j < n + 1 ensures MarkerOf(entities[|old(entities)| + j], stations[j]) {
            if j < n {
              assert entities[|old(entities)| + j] == before[|old(entities)| + j];
            }
          }
          n := n + 1;
        }
        i := i + 1;
      }
      if r.Ok? {
        assert stations[i..] == [];
      }
    }

    /** One step of addAllStations: addStation for `stations[i]`, with what it means for the
        stations added so far. */
    method AddNext(stations: seq<Station>, i: nat, ghost taken: set<string>) returns (r: Result<(), string>)
      requires Valid() && i < |stations|
      requires AddedBeforeClash(taken, stations) == i + AddedBeforeClash(Ids(viewer.collection), stations[i..])
      modifies this, viewer
      ensures Valid()
      ensures r.Ok? ==> AddedBeforeClash(taken, stations) == i + 1 + AddedBeforeClash(Ids(viewer.collection), stations[i + 1..])
      ensures r.Ok? ==> exists e :: entities == old(entities) + [e] && fresh(e) && MarkerOf(e, stations[i])
      ensures r.Err? ==> AddedBeforeClash(taken, stations) == i && r.error == DuplicateIdMessage(stations[i].id)
                         && entities == old(entities)
      ensures selectedEntity == old(selectedEntity)
      ensures viewer.selected == old(viewer.selected) && viewer.cursor == old(viewer.cursor)
      ensures viewer.requests == old(viewer.requests)
    {
      ghost var collection := viewer.collection;
      AddedBeforeClashStep(Ids(collection), stations[i..]);
      assert stations[i..][0] == stations[i] && stations[i..][1..] == stations[i + 1..];
      var added := AddStation(stations[i]);
      if added.Err? {
        return Err(added.error);
      }
      IdsAppend(collection, added.value);
      r := Ok(());
    }

    /** The MOUSE_MOVE handler: the previous hover target goes back to 12, then an entity with
        a point under the pointer becomes the hover target at 18 and the cursor a pointer;
        otherwise the hover is cleared and the cursor reset. */
    method OnMove(pick: Pick)
      requires Valid()
      modifies this, viewer, selectedEntity, PickedSet(pick)
      ensures Valid()
      ensures HitsPoint(pick) ==> selectedEntity == pick.entity && pick.entity.pixelSize == 18 && viewer.cursor == Pointer
      ensures !HitsPoint(pick) ==> selectedEntity == null && viewer.cursor == Default
      ensures old(selectedEntity) != null && !(HitsPoint(pick) && pick.entity == old(selectedEntity)) ==>
                old(selectedEntity).pixelSize == 12
      ensures touched == old(touched) + (if HitsPoint(pick) then {pick.entity} else {})
      ensures old(selectedEntity) == null && !HitsPoint(pick) ==>
                forall e :: e in touched ==> e.pixelSize == old(e.pixelSize)
      ensures entities == old(entities) && viewer.collection == old(viewer.collection)
      ensures viewer.selected == old(viewer.selected) && viewer.requests == old(viewer.requests)
      ensures pick.Picked? ==> pick.entity.show == old(pick.entity.show) && pick.entity.description == old(pick.entity.description)
      ensures var h := old(selectedEntity); h != null ==> h.show == old(h.show) && h.description == old(h.description)
    {
      if selectedEntity != null && selectedEntity.hasPoint {
        selectedEntity.pixelSize := 12;
      }
      if HitsPoint(pick) {
        selectedEntity := pick.entity;
        selectedEntity.pixelSize := 18;
        touched := touched + {pick.entity};
        viewer.cursor := Pointer;
      } else {
        selectedEntity := null;
        viewer.cursor := Default;
      }
    }

    /** The LEFT_CLICK handler: a picked entity carrying a station becomes the viewer's selected
        entity and gets that station's panel as its description; any other click changes
        nothing. The hover reference is not involved. */
    method OnClick(pick: Pick)
      requires Valid()
      modifies viewer, PickedSet(pick)
      ensures Valid()
      ensures pick.Picked? && pick.entity.properties.Some? ==>
        && viewer.selected == pick.entity
        && pick.entity.description == Some(StationPanel(pick.entity.properties.value))
      ensures !(pick.Picked? && pick.entity.properties.Some?) ==>
        viewer.selected == old(viewer.selected) && (pick.Picked? ==> pick.entity.description == old(pick.entity.description))
      ensures viewer.collection == old(viewer.collection) && viewer.cursor == old(viewer.cursor)
      ensures viewer.requests == old(viewer.requests)
      ensures forall e :: e in touched ==> e.pixelSize == old(e.pixelSize) && e.show == old(e.show)
    {
      if pick.Picked? {
        var entity := pick.entity;
        var station := entity.properties;
        if station.Some? {
          ShowStationInfo(entity, station.value);
        }
      }
    }

    /** showStationInfo. */
    method ShowStationInfo(entity: Entity, station: Station)
      requires Valid()
      modifies viewer, entity
      ensures Valid()
      ensures viewer.selected == entity && entity.description == Some(StationPanel(station))
      ensures viewer.collection == old(viewer.collection) && viewer.cursor == old(viewer.cursor)
      ensures viewer.requests == old(viewer.requests)
      ensures entity.pixelSize == old(entity.pixelSize) && entity.show == old(entity.show)
    {
      viewer.selected := entity;
      entity.description := Some(StationPanel(station));
    }

    /** filterByType and filterByStatus: one pass over the list; no value shows every entity,
        a value shows exactly the entities whose station field equals it. Each call overwrites
        the previous filter; the list, the sizes and the hover stay. */
    method FilterBy(byStatus: bool, value: Option<string>)
      requires Valid()
      modifies set e | e in entities
      ensures Valid()
      ensures forall e :: e in entities ==>
        e.show == (value.None? || (if byStatus then e.properties.value.status else e.properties.value.kind) == value.value)
      ensures forall e :: e in touched ==> e.pixelSize == old(e.pixelSize)
      ensures forall e :: e in entities ==> e.description == old(e.description)
    {
      for i := 0 to |entities|
        invariant Valid()
        invariant forall j :: 0 <= j < i ==>
          entities[j].show == (value.None? || (if byStatus then entities[j].properties.value.status else entities[j].properties.value.kind) == value.value)
        invariant forall e :: e in touched ==> e.pixelSize == old(e.pixelSize)
        invariant forall e :: e in entities ==> e.description == old(e.description)
      {
        var entity := entities[i];
        if value.None? {
          entity.show := true;
        } else {
          var station := entity.properties.value;
          entity.show := (if byStatus then station.status else station.kind) == value.value;
        }
      }
    }

    /** filterByType. */
    method FilterByType(kind: Option<string>)
      requires Valid()
      modifies set e | e in entities
      ensures Valid()
      ensures forall e :: e in entities ==> e.show == (kind.None? || e.properties.value.kind == kind.value)
      ensures forall e :: e in touched ==> e.pixelSize == old(e.pixelSize)
      ensures forall e :: e in entities ==> e.description == old(e.description)
    {
      FilterBy(false, kind);
    }

    /** filterByStatus. */
    method FilterByStatus(status: Option<string>)
      requires Valid()
      modifies set e | e in entities
      ensures Valid()
      ensures forall e :: e in entities ==> e.show == (status.None? || e.properties.value.status == status.value)
      ensures forall e :: e in touched ==> e.pixelSize == old(e.pixelSize)
      ensures forall e :: e in entities ==> e.description == old(e.description)
    {
      FilterBy(true, status);
    }

    /** flyToStation: one camera request for the first entity with that id, none if there is
        no such entity. */
    method FlyToStation(stationId: string)
      requires Valid()
      modifies viewer
      ensures Valid()
      ensures (forall e :: e in entities ==> e.id != stationId) ==> viewer.requests == old(viewer.requests)
      ensures forall i :: 0 <= i < |entities| && entities[i].id == stationId ==>
                viewer.requests == old(viewer.requests) + [FlyToEntity(entities[i])]
      ensures viewer.collection == old(viewer.collection) && viewer.selected == old(viewer.selected)
      ensures viewer.cursor == old(viewer.cursor)
    {
      var k := 0;
      while k < |entities| && entities[k].id != stationId
        invariant 0 <= k <= |entities|
        invariant forall j :: 0 <= j < k ==> entities[j].id != stationId
      {
        k := k + 1;
      }
      if k < |entities| {
        viewer.requests := viewer.requests + [FlyToEntity(entities[k])];
      }
    }

    /** clear: every listed entity is removed from the viewer and the list is emptied; the
        hover reference is left as it was, so it may name an entity that is gone. */
    method Clear()
      requires Valid()
      modifies this, viewer
      ensures Valid()
      ensures entities == []
      ensures selectedEntity == old(selectedEntity) && touched == old(touched)
      ensures forall x :: x in viewer.collection <==> x in old(viewer.collection) && x !in old(entities)
      ensures viewer.selected == old(viewer.selected) && viewer.cursor == old(viewer.cursor)
      ensures viewer.requests == old(viewer.requests)
    {
      for i := 0 to |entities|
        invariant entities == old(entities) && selectedEntity == old(selectedEntity) && touched == old(touched)
        invariant viewer.selected == old(viewer.selected) && viewer.cursor == old(viewer.cursor)
        invariant viewer.requests == old(viewer.requests)
        invariant forall x :: x in viewer.collection <==> x in old(viewer.collection) && x !in entities[..i]
        invariant forall a, b :: a in viewer.collection && b in viewer.collection && a.id == b.id ==> a == b
      {
        viewer.collection := Without(viewer.collection, entities[i]);
      }
      assert entities[..|entities|] == entities;
      entities := [];
    }
  }
}
