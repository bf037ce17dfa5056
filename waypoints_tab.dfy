/**
 * The data rules of the waypoint list of the map's info block
 * (map/src/infoblock/components/tabs/WaypointsTab.jsx): which layers the
 * list is built from, how map markers are joined with the file's waypoints,
 * how a row's name and text are shortened, and what clearing the waypoints
 * does to the selected file.
 *
 * Coordinates are not modelled as numbers: a waypoint and a marker each
 * carry the `"lat,lon"` text the tab joins them on, as a value of the
 * opaque key type `K`.
 */
module WaypointsTab {
  import opened Wrappers

  /** `NAME_SIZE`: the longest name a row shows in full. */
  const NameSize := 30

  /** The text length a row shows of a description and of an address when it has both. */
  const ShortTextSize := 15

  /** The text length a row shows otherwise. */
  const LongTextSize := 30

  /** A waypoint of the GPX file, with the key its coordinates render to. */
  datatype Wpt<K> = Wpt(key: K, category: Option<string>)

  /**
   * An option of a marker that may hold text, as JavaScript sees it: not set
   * at all, set to `null`, or set to a string. The rows tell `undefined` from
   * `null` for the description and the address.
   */
  datatype TextOption = Undefined | Null | Text(text: string)

  /**
   * The options of a marker that the rows read. The title is only tested for
   * truthiness, where `undefined` and `null` agree, so `None` stands for both.
   */
  datatype LayerOptions = LayerOptions(title: Option<string>, desc: TextOption, address: TextOption)

  /** A map layer: a marker at a position, or any other kind of layer (a track line, for one). */
  datatype Layer<K> = Marker(latLng: K, options: Option<LayerOptions>) | OtherLayer

  /**
   * A Leaflet layer group: its layers, and whether the group object has no
   * own enumerable properties (what lodash's `isEmpty` tests of an object).
   */
  datatype LayerGroup<K> = LayerGroup(members: seq<Layer<K>>, isEmptyObject: bool)

  /** A row of the list: a waypoint and the marker that shows it. */
  datatype Point<K> = Point(wpt: Wpt<K>, layer: Layer<K>)

  /** The JavaScript truthiness of an optional string: present and not empty. */
  predicate Truthy(s: Option<string>) {
    s.Some? && s.value != ""
  }

  /** The JavaScript truthiness of a text option: a string that is not empty. */
  predicate TruthyText(v: TextOption) {
    v.Text? && v.text != ""
  }

  /** The parts of the selected GPX file the tab reads and changes. */
  class GpxFile<K(==)> {
    var wpts: Option<seq<Wpt<K>>>
    var layers: Option<LayerGroup<K>>
    var gpx: Option<LayerGroup<K>>
    var updateLayers: bool

    constructor (wpts: Option<seq<Wpt<K>>>, layers: Option<LayerGroup<K>>, gpx: Option<LayerGroup<K>>, updateLayers: bool)
      ensures this.wpts == wpts && this.layers == layers && this.gpx == gpx && this.updateLayers == updateLayers
    {
      this.wpts := wpts;
      this.layers := layers;
      this.gpx := gpx;
      this.updateLayers := updateLayers;
    }

    /**
     * The confirmed "Clear waypoints" callback of `deleteAllWpts`: the file
     * keeps no waypoint and asks for its layers to be rebuilt, so the list
     * built from it is empty whatever its layers are.
     */
    method DeleteAllWpts()
      modifies this
      ensures wpts == Some([]) && updateLayers
      ensures layers == old(layers) && gpx == old(gpx)
      ensures Pair(GetLayers(this), wpts.value) == []
    {
      wpts := Some([]);
      updateLayers := true;
      PairWithoutWaypoints(GetLayers(this));
    }
  }

  /**
   * `getLayers`: the file's own layer group when it is present and not an
   * empty object, otherwise the layers of its parsed GPX when present,
   * otherwise none.
   */
  function GetLayers<K(==)>(file: GpxFile<K>): (r: seq<Layer<K>>)
    reads file
    ensures file.layers.Some? && !file.layers.value.isEmptyObject ==> r == file.layers.value.members
    ensures (file.layers.None? || file.layers.value.isEmptyObject) && file.gpx.Some? ==> r == file.gpx.value.members
    ensures (file.layers.None? || file.layers.value.isEmptyObject) && file.gpx.None? ==> r == []
  {
    if file.layers.Some? && !file.layers.value.isEmptyObject then file.layers.value.members
    else if file.gpx.Some? then file.gpx.value.members
    else []
  }

  // ---------------------------------------------------------------------
  // Joining markers with waypoints
  // ---------------------------------------------------------------------

  /** The last waypoint with key `k`: the one `Object.fromEntries` keeps for that key. */
  function LastWithKey<K(==)>(wpts: seq<Wpt<K>>, k: K): Option<Wpt<K>>
  {
    if wpts == [] then None
    else if wpts[|wpts| - 1].key == k then Some(wpts[|wpts| - 1])
    else LastWithKey(wpts[..|wpts| - 1], k)
  }

  /** The row a layer contributes: one for a marker whose key some waypoint has, none otherwise. */
  function RowOf<K(==)>(layer: Layer<K>, wpts: seq<Wpt<K>>): seq<Point<K>>
  {
    match layer
    case Marker(k, _) =>
      (match LastWithKey(wpts, k)
       case Some(w) => [Point(w, layer)]
       case None => [])
    case OtherLayer => []
  }

  /** The list of rows: each layer's row, in layer order. */
  function Pair<K(==)>(layers: seq<Layer<K>>, wpts: seq<Wpt<K>>): seq<Point<K>>
  {
    if layers == [] then []
    else Pair(layers[..|layers| - 1], wpts) + RowOf(layers[|layers| - 1], wpts)
  }

  /**
   * `getPoints`: no rows when the file has no waypoint list; otherwise a
   * key-to-waypoint dictionary is built, later waypoints replacing earlier
   * ones, and each marker layer that finds its key in it contributes a row.
   */
  method GetPoints<K(==)>(file: GpxFile<K>) returns (points: seq<Point<K>>)
    ensures file.wpts.None? ==> points == []
    ensures file.wpts.Some? ==> points == Pair(GetLayers(file), file.wpts.value)
  {
    points := [];
    if file.wpts.Some? {
      var layers := GetLayers(file);
      var wpts := file.wpts.value;
      var byKey: map<K, Wpt<K>> := map[];
      var i := 0;
      while i < |wpts|
        invariant 0 <= i <= |wpts|
        invariant forall k :: k in byKey <==> LastWithKey(wpts[..i], k).Some?
        invariant forall k :: k in byKey ==> Some(byKey[k]) == LastWithKey(wpts[..i], k)
      {
        assert wpts[..i + 1][..i] == wpts[..i];
        byKey := byKey[wpts[i].key := wpts[i]];
        i := i + 1;
      }
      assert wpts[..i] == wpts;
      var j := 0;
      while j < |layers|
        invariant 0 <= j <= |layers|
        invariant points == Pair(layers[..j], wpts)
      {
        assert layers[..j + 1][..j] == layers[..j];
        var layer := layers[j];
        if layer.Marker? {
          var key := layer.latLng;
          if key in byKey {
            points := points + [Point(byKey[key], layer)];
          }
        }
        j := j + 1;
      }
      assert layers[..j] == layers;
    }
  }

  /**
   * The waypoint kept for a key is the last one with that key: there is one
   * exactly when some waypoint has the key, and no later waypoint has it.
   */
  lemma {:induction false} LastWithKeyIsLast<K>(wpts: seq<Wpt<K>>, k: K)
    ensures LastWithKey(wpts, k).Some? <==> exists i :: 0 <= i < |wpts| && wpts[i].key == k
    ensures LastWithKey(wpts, k).Some? ==>
      exists i :: 0 <= i < |wpts| && wpts[i] == LastWithKey(wpts, k).value && wpts[i].key == k &&
        forall j :: i < j < |wpts| ==> wpts[j].key != k
  {
    if wpts != [] {
      var n := |wpts| - 1;
      var init := wpts[..n];
      LastWithKeyIsLast(init, k);
      assert forall i :: 0 <= i < n ==> wpts[i] == init[i];
      if wpts[n].key != k && LastWithKey(init, k).Some? {
        var i :| 0 <= i < n && init[i] == LastWithKey(init, k).value && init[i].key == k &&
          forall j :: i < j < n ==> init[j].key != k;
        assert wpts[i] == init[i];
      }
    }
  }

  /** A layer that gets a row: a marker whose key some waypoint has. */
  predicate Matched<K(==)>(layer: Layer<K>, wpts: seq<Wpt<K>>) {
    layer.Marker? && LastWithKey(wpts, layer.latLng).Some?
  }

  /**
   * The rows follow layer order, at most one per layer: row `j` comes from
   * layer `idx[j]`, the indices increase, every row pairs a marker with the
   * last waypoint of the marker's key, and the layers that get a row are
   * exactly the matched markers (other layers, and markers no waypoint
   * matches, contribute nothing).
   */
  lemma {:induction false} PairFollowsLayers<K>(layers: seq<Layer<K>>, wpts: seq<Wpt<K>>) returns (idx: seq<nat>)
    ensures |idx| == |Pair(layers, wpts)|
    ensures forall j :: 0 <= j < |idx| ==> idx[j] < |layers|
    ensures forall j, j' :: 0 <= j < j' < |idx| ==> idx[j] < idx[j']
    ensures forall j :: 0 <= j < |idx| ==>
      var p := Pair(layers, wpts)[j];
      p.layer == layers[idx[j]] && p.layer.Marker? && p.wpt.key == p.layer.latLng &&
      LastWithKey(wpts, p.layer.latLng) == Some(p.wpt)
    ensures forall i :: 0 <= i < |layers| ==> (Matched(layers[i], wpts) <==> i in idx)
  {
    if layers == [] {
      idx := [];
    } else {
      var n := |layers| - 1;
      var init := layers[..n];
      var before := PairFollowsLayers(init, wpts);
      assert forall i :: 0 <= i < n ==> layers[i] == init[i];
      var last := layers[n];
      var row := RowOf(last, wpts);
      assert Pair(layers, wpts) == Pair(init, wpts) + row;
      if Matched(last, wpts) {
        LastWithKeyKey(wpts, last.latLng);
        idx := before + [n];
      } else {
        idx := before;
      }
    }
  }

  /** The waypoint kept for a key has that key. */
  lemma {:induction false} LastWithKeyKey<K>(wpts: seq<Wpt<K>>, k: K)
    ensures LastWithKey(wpts, k).Some? ==> LastWithKey(wpts, k).value.key == k
  {
    if wpts != [] && wpts[|wpts| - 1].key != k {
      LastWithKeyKey(wpts[..|wpts| - 1], k);
    }
  }

  /** Without waypoints, no layer gets a row. */
  lemma {:induction false} PairWithoutWaypoints<K>(layers: seq<Layer<K>>)
    ensures Pair(layers, []) == []
  {
    if layers != [] {
      PairWithoutWaypoints(layers[..|layers| - 1]);
    }
  }

  // ---------------------------------------------------------------------
  // What a row shows
  // ---------------------------------------------------------------------

  /**
   * `getName`: nothing when the marker has no title (or an empty one), the
   * title when it fits in `NameSize` characters, otherwise its first
   * `NameSize` characters.
   */
  function GetName(options: Option<LayerOptions>): (r: Option<string>)
    ensures r.None? <==> options.None? || !Truthy(options.value.title)
    ensures r.Some? ==> r.value <= options.value.title.value
    ensures r.Some? ==> |r.value| == if |options.value.title.value| > NameSize then NameSize else |options.value.title.value|
  {
    if options.Some? && Truthy(options.value.title) then
      var name := options.value.title.value;
      if |name| > NameSize then Some(name[..NameSize]) else Some(name)
    else None
  }

  /**
   * `getLength`: how much of the description and of the address a row
   * shows: less when it shows both.
   */
  function GetLength(options: Option<LayerOptions>): (n: nat)
    ensures n == ShortTextSize || n == LongTextSize
    ensures n == ShortTextSize <==> options.Some? && TruthyText(options.value.desc) && TruthyText(options.value.address)
    ensures options.Some? && (options.value.desc == Null || options.value.address == Null) ==> n == LongTextSize
  {
    if options.Some? && TruthyText(options.value.desc) && TruthyText(options.value.address) then ShortTextSize else LongTextSize
  }

  /**
   * `hasInfo`: a row shows details when the marker has a description or an
   * address that is not `undefined` (even `null` or an empty string), or the
   * waypoint has a non-empty category.
   */
  function HasInfo<K>(point: Point<K>): (b: bool)
    ensures b <==>
      (point.layer.Marker? && point.layer.options.Some? &&
       (point.layer.options.value.desc != Undefined || point.layer.options.value.address != Undefined)) ||
      Truthy(point.wpt.category)
    ensures point.layer.Marker? && point.layer.options.Some? && point.layer.options.value.desc == Null ==> b
  {
    var options := if point.layer.Marker? then point.layer.options else None;
    (options.Some? && !options.value.desc.Undefined?) || (options.Some? && !options.value.address.Undefined?) ||
    Truthy(point.wpt.category)
  }
}
