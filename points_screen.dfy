/** The collection-point screen: the categories it offers, the categories
    the user has selected, the device position that centres the map and
    the collection points last received. Each effect of the screen and the
    chip handler overwrite one of these fields, so the screen is a class
    and each event a method on it. Network responses and the device's
    permission answer arrive as method arguments. */
module PointsPage {
  import opened Selection

  /** A category, as `GET /items` returns it. */
  datatype Item = Item(id: int, title: string, imageUrl: string)

  /** A collection point, as `GET /points` returns it. Coordinates are
      opaque; only the latitude of the map centre is ever compared. */
  datatype Point = Point(id: int, image: string, imageUrl: string, name: string,
                         latitude: real, longitude: real)

  /** The region chosen on the previous screen. */
  datatype RouteParams = RouteParams(selectedUf: string, selectedCity: string)

  /** The stored `[latitude, longitude]` pair. */
  datatype Position = Position(latitude: real, longitude: real)

  /** The query parameters of a `GET /points` request. */
  datatype PointsRequest = PointsRequest(city: string, uf: string, items: seq<int>)

  /** A rendered category chip. */
  datatype Chip = Chip(id: int, title: string, imageUrl: string, selected: bool)

  /** The initial position, `[0, 0]`. */
  const Origin := Position(0.0, 0.0)

  /** The permission status that lets the screen read the device position. */
  const Granted := "granted"

  /** The points request for a region and a selection: the region always
      comes from the route, the category filter from the selection. */
  function PointsQuery(route: RouteParams, selected: seq<int>): (r: PointsRequest)
    ensures r.city == route.selectedCity && r.uf == route.selectedUf
    ensures r.items == selected
  {
    PointsRequest(route.selectedCity, route.selectedUf, selected)
  }

  /** The map is rendered only when the stored latitude is not 0; in
      particular never at the initial position. */
  predicate ShowsMap(p: Position)
    ensures ShowsMap(p) ==> p != Origin
  {
    p.latitude != 0.0
  }

  /** One chip per category, in the order received; a chip is highlighted
      exactly when its id is in the selection. */
  function ChipsOf(items: seq<Item>, selected: seq<int>): (r: seq<Chip>)
    ensures |r| == |items|
    ensures forall k :: 0 <= k < |items| ==>
      r[k].id == items[k].id && r[k].title == items[k].title &&
      r[k].imageUrl == items[k].imageUrl &&
      (r[k].selected <==> items[k].id in selected)
  {
    if items == [] then []
    else
      [Chip(items[0].id, items[0].title, items[0].imageUrl, items[0].id in selected)]
      + ChipsOf(items[1..], selected)
  }

  class PointsScreen {
    /** The route's parameters; read, never written. */
    const route: RouteParams

    var items: seq<Item>
    var selectedItems: seq<int>
    var initialPosition: Position
    var points: seq<Point>

    /** Every points request the screen has issued, oldest first. */
    ghost var requests: seq<PointsRequest>
    /** Whether a granted permission has stored a device position. */
    ghost var located: bool

    /** The screen's invariant: a duplicate-free selection, the initial
        position until a permission is granted, and a request log whose
        every entry carries the route's region and whose latest entry
        carries the current selection. */
    ghost predicate Valid()
      reads this
      ensures Valid() ==> (MapShown() ==> located)
    {
      NoDuplicates(selectedItems) &&
      (!located ==> initialPosition == Origin) &&
      requests != [] &&
      requests[|requests| - 1] == PointsQuery(route, selectedItems) &&
      (forall k :: 0 <= k < |requests| ==>
        requests[k].city == route.selectedCity && requests[k].uf == route.selectedUf)
    }

    /** Mounting the screen: every field at its initial value, and the
        points effect's first run, a request with the empty selection. */
    constructor (route: RouteParams)
      ensures Valid()
      ensures this.route == route
      ensures items == [] && selectedItems == [] && initialPosition == Origin && points == []
      ensures requests == [PointsRequest(route.selectedCity, route.selectedUf, [])]
      ensures !located
    {
      this.route := route;
      items := [];
      selectedItems := [];
      initialPosition := Origin;
      points := [];
      requests := [PointsQuery(route, [])];
      located := false;
    }

    /** Whether the chip of category `id` is highlighted. */
    function ChipSelected(id: int): (r: bool)
      reads this
      ensures forall k :: 0 <= k < |items| && items[k].id == id ==> (Chips()[k].selected <==> r)
    {
      id in selectedItems
    }

    /** Whether the map, and with it the markers, is rendered. */
    function MapShown(): (r: bool)
      reads this
      ensures r ==> initialPosition != Origin
    {
      ShowsMap(initialPosition)
    }

    /** The category chips as rendered. */
    function Chips(): (r: seq<Chip>)
      reads this
      ensures |r| == |items|
      ensures forall k :: 0 <= k < |items| ==>
        r[k].id == items[k].id && r[k].title == items[k].title &&
        (r[k].selected <==> items[k].id in selectedItems)
    {
      ChipsOf(items, selectedItems)
    }

    /** The markers as rendered: the points, once the map is shown. */
    function Markers(): (r: seq<Point>)
      reads this
      ensures r != [] ==> MapShown() && r == points
      ensures MapShown() ==> r == points
    {
      if MapShown() then points else []
    }

    /** The categories response arrived: it replaces the category list. */
    method ItemsLoaded(response: seq<Item>)
      requires Valid()
      modifies this
      ensures Valid()
      ensures items == response
      ensures selectedItems == old(selectedItems) && initialPosition == old(initialPosition)
      ensures points == old(points) && requests == old(requests) && located == old(located)
    {
      items := response;
    }

    /** The permission answer arrived, with the position the device would
        report. Any status other than "granted" leaves the state as it was;
        "granted" stores the position. */
    method LoadPosition(status: string, coords: Position)
      requires Valid()
      modifies this
      ensures Valid()
      ensures status != Granted ==>
        initialPosition == old(initialPosition) && located == old(located)
      ensures status == Granted ==> initialPosition == coords && located
      ensures MapShown() <==> if status == Granted then coords.latitude != 0.0 else old(MapShown())
      ensures MapShown() ==> located
      ensures items == old(items) && selectedItems == old(selectedItems)
      ensures points == old(points) && requests == old(requests)
    {
      if status != Granted {
        return;
      }
      initialPosition := coords;
      located := true;
    }

    /** A points response arrived: it replaces the previous points. Which
        request it answers is not known to the screen. */
    method PointsLoaded(response: seq<Point>)
      requires Valid()
      modifies this
      ensures Valid()
      ensures points == response
      ensures items == old(items) && selectedItems == old(selectedItems)
      ensures initialPosition == old(initialPosition)
      ensures requests == old(requests) && located == old(located)
    {
      points := response;
    }

    /** A tap on the chip of category `id`: the selection is toggled, and
        since it changed the points effect issues a new request, which is
        returned. */
    method HandleSelectItem(id: int) returns (request: PointsRequest)
      requires Valid()
      modifies this
      ensures Valid()
      ensures selectedItems == Toggle(old(selectedItems), id)
      ensures ChipSelected(id) <==> !old(ChipSelected(id))
      ensures |selectedItems| == if id in old(selectedItems) then |old(selectedItems)| - 1
                                 else |old(selectedItems)| + 1
      ensures request == PointsRequest(route.selectedCity, route.selectedUf, selectedItems)
      ensures requests == old(requests) + [request]
      ensures items == old(items) && initialPosition == old(initialPosition)
      ensures points == old(points) && located == old(located)
    {
      ToggleNoDuplicates(selectedItems, id);
      selectedItems := Toggle(selectedItems, id);
      request := PointsQuery(route, selectedItems);
      requests := requests + [request];
    }
  }

  /** The map stays hidden after a refused permission, whatever the device
      would have reported. */
  method DeniedPermission(route: RouteParams, status: string, coords: Position)
    returns (shown: bool, markers: seq<Point>)
    requires status != Granted
    ensures !shown && markers == []
  {
    var screen := new PointsScreen(route);
    screen.LoadPosition(status, coords);
    shown := screen.MapShown();
    markers := screen.Markers();
  }

  /** One category arrives; its chip starts unselected, a tap selects it and
      a second tap unselects it again, and each tap issues a request with
      the route's region and the new selection. */
  method LampChip(route: RouteParams, url: string)
    returns (loaded: seq<Chip>, once: seq<Chip>, twice: seq<Chip>,
             first: PointsRequest, second: PointsRequest)
    ensures loaded == [Chip(1, "Lâmpadas", url, false)]
    ensures once == [Chip(1, "Lâmpadas", url, true)]
    ensures twice == loaded
    ensures first == PointsRequest(route.selectedCity, route.selectedUf, [1])
    ensures second == PointsRequest(route.selectedCity, route.selectedUf, [])
  {
    var screen := new PointsScreen(route);
    screen.ItemsLoaded([Item(1, "Lâmpadas", url)]);
    loaded := screen.Chips();
    first := screen.HandleSelectItem(1);
    once := screen.Chips();
    second := screen.HandleSelectItem(1);
    twice := screen.Chips();
  }
}
