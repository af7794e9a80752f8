/**
 The sensors of a hardware tree by their place in it, independently of how the bridge walks it; and the
 walks against that.
 */
module SensorPaths {
  import opened Bridge
  import opened Messages
  import opened Wrappers

  /** The hardware reached by following child indexes from the roots. */
  function HardwareAt(trees: seq<Hardware>, path: seq<nat>): Option<Hardware>
    decreases |path|
  {
    if path == [] || path[0] >= |trees| then None
    else if |path| == 1 then Some(trees[path[0]])
    else HardwareAt(trees[path[0]].subHardware, path[1..])
  }

  /** A sensor by the path of its hardware and its index there. */
  datatype Place = Place(path: seq<nat>, index: nat)

  predicate IsPlace(trees: seq<Hardware>, p: Place) {
    var hardware := HardwareAt(trees, p.path);
    hardware.Some? && p.index < |hardware.value.sensors|
  }

  function EntryAt(trees: seq<Hardware>, p: Place): Entry
    requires IsPlace(trees, p)
  {
    var hardware := HardwareAt(trees, p.path).value;
    Entry(hardware, hardware.sensors[p.index])
  }

  function SensorAt(trees: seq<Hardware>, p: Place): Sensor
    requires IsPlace(trees, p)
  {
    EntryAt(trees, p).sensor
  }

  // ---- The order of the walks ----

  predicate PathBefore(a: seq<nat>, b: seq<nat>)
    decreases |a|
  {
    b != [] && (a == [] || a[0] < b[0] || (a[0] == b[0] && PathBefore(a[1..], b[1..])))
  }

  /** Parents before children, siblings by index, and the sensors of one hardware by index. */
  predicate Before(a: Place, b: Place) {
    PathBefore(a.path, b.path) || (a.path == b.path && a.index < b.index)
  }

  /** All places of the trees, each once, in that order. */
  ghost predicate IsPreOrder(trees: seq<Hardware>, places: seq<Place>) {
    && (forall p :: p in places <==> IsPlace(trees, p))
    && (forall i, j :: 0 <= i < j < |places| ==> Before(places[i], places[j]))
  }

  // ---- The places, constructed ----

  function OwnPlaces(path: seq<nat>, count: nat): seq<Place> {
    seq(count, i requires 0 <= i < count => Place(path, i))
  }

  function Under(root: nat, places: seq<Place>): seq<Place> {
    seq(|places|, i requires 0 <= i < |places| => Place([root] + places[i].path, places[i].index))
  }

  function PlacesOfTree(tree: Hardware, root: nat): seq<Place>
    decreases tree, 1
  {
    OwnPlaces([root], |tree.sensors|) + Under(root, PlacesOfTrees(tree.subHardware, 0))
  }

  /** The places of `trees` when their roots are counted from `first`. */
  function PlacesOfTrees(trees: seq<Hardware>, first: nat): seq<Place>
    decreases trees, 0
  {
    if trees == [] then [] else PlacesOfTree(trees[0], first) + PlacesOfTrees(trees[1..], first + 1)
  }

  /** The place `p` lies in `trees` when their roots are counted from `first`. */
  predicate IsPlaceFrom(trees: seq<Hardware>, first: nat, p: Place) {
    p.path != [] && p.path[0] >= first && IsPlace(trees, Place([p.path[0] - first] + p.path[1..], p.index))
  }

  function EntryFrom(trees: seq<Hardware>, first: nat, p: Place): Entry
    requires IsPlaceFrom(trees, first, p)
  {
    EntryAt(trees, Place([p.path[0] - first] + p.path[1..], p.index))
  }

  predicate IsPlaceOfTree(tree: Hardware, root: nat, p: Place) {
    && p.path != [] && p.path[0] == root
    && if |p.path| == 1 then p.index < |tree.sensors| else IsPlace(tree.subHardware, Place(p.path[1..], p.index))
  }

  function EntryOfTree(tree: Hardware, root: nat, p: Place): Entry
    requires IsPlaceOfTree(tree, root, p)
  {
    if |p.path| == 1 then Entry(tree, tree.sensors[p.index]) else EntryAt(tree.subHardware, Place(p.path[1..], p.index))
  }

  /** A place is in the first tree, or among the others. */
  lemma FirstOrOther(trees: seq<Hardware>, first: nat, p: Place)
    requires trees != []
    ensures IsPlaceFrom(trees, first, p) <==> IsPlaceOfTree(trees[0], first, p) || IsPlaceFrom(trees[1..], first + 1, p)
    ensures IsPlaceOfTree(trees[0], first, p) ==> EntryFrom(trees, first, p) == EntryOfTree(trees[0], first, p)
    ensures IsPlaceFrom(trees[1..], first + 1, p) ==> EntryFrom(trees, first, p) == EntryFrom(trees[1..], first + 1, p)
  {
    if p.path != [] && p.path[0] >= first {
      var q := [p.path[0] - first] + p.path[1..];
      assert q[1..] == p.path[1..];
      if p.path[0] > first {
        var r := [p.path[0] - (first + 1)] + p.path[1..];
        assert r[1..] == p.path[1..];
      }
    }
  }

  lemma PlacesOfTreeAreSound(tree: Hardware, root: nat)
    ensures forall p :: p in PlacesOfTree(tree, root) <==> IsPlaceOfTree(tree, root, p)
    decreases tree, 1
  {
    var sub := PlacesOfTrees(tree.subHardware, 0);
    PlacesAreSound(tree.subHardware, 0);
    forall p ensures p in PlacesOfTree(tree, root) <==> IsPlaceOfTree(tree, root, p) {
      InOwn([root], |tree.sensors|, p);
      InUnder(root, sub, p);
      if p.path != [] && p.path[0] == root && |p.path| > 1 {
        SamePlaceFromZero(tree.subHardware, Place(p.path[1..], p.index));
      }
      NotEmptyPaths(tree.subHardware, 0, sub);
    }
  }

  lemma NotEmptyPaths(trees: seq<Hardware>, first: nat, places: seq<Place>)
    requires forall p :: p in places <==> IsPlaceFrom(trees, first, p)
    ensures forall p :: p in places ==> p.path != []
  {
  }

  lemma SamePlaceFromZero(trees: seq<Hardware>, p: Place)
    ensures IsPlaceFrom(trees, 0, p) <==> IsPlace(trees, p)
    ensures IsPlace(trees, p) ==> EntryFrom(trees, 0, p) == EntryAt(trees, p)
  {
    if p.path != [] {
      assert [p.path[0] - 0] + p.path[1..] == p.path;
    }
  }

  lemma InOwn(path: seq<nat>, count: nat, p: Place)
    ensures p in OwnPlaces(path, count) <==> p.path == path && p.index < count
  {
    if p.path == path && p.index < count {
      assert OwnPlaces(path, count)[p.index] == p;
    }
  }

  lemma InUnder(root: nat, places: seq<Place>, p: Place)
    ensures p in Under(root, places) <==> p.path != [] && p.path[0] == root && Place(p.path[1..], p.index) in places
  {
    if p in Under(root, places) {
      var i :| 0 <= i < |places| && Under(root, places)[i] == p;
      assert p.path[1..] == places[i].path;
    }
    if p.path != [] && p.path[0] == root && Place(p.path[1..], p.index) in places {
      var i :| 0 <= i < |places| && places[i] == Place(p.path[1..], p.index);
      assert [root] + places[i].path == p.path;
      assert Under(root, places)[i] == p;
    }
  }

  lemma {:induction false} PlacesAreSound(trees: seq<Hardware>, first: nat)
    ensures forall p :: p in PlacesOfTrees(trees, first) <==> IsPlaceFrom(trees, first, p)
    decreases trees, 0
  {
    if trees != [] {
      PlacesOfTreeAreSound(trees[0], first);
      PlacesAreSound(trees[1..], first + 1);
      forall p ensures p in PlacesOfTrees(trees, first) <==> IsPlaceFrom(trees, first, p) {
        FirstOrOther(trees, first, p);
      }
    }
  }

  // ---- Their order ----

  predicate InOrder(places: seq<Place>) {
    forall i, j :: 0 <= i < j < |places| ==> Before(places[i], places[j])
  }

  lemma InOrderConcat(a: seq<Place>, b: seq<Place>)
    requires InOrder(a) && InOrder(b) && forall p, q :: p in a && q in b ==> Before(p, q)
    ensures InOrder(a + b)
  {
    forall i, j | 0 <= i < j < |a + b| ensures Before((a + b)[i], (a + b)[j]) {
      if i < |a| <= j {
        assert a[i] in a && b[j - |a|] in b;
      }
    }
  }

  lemma UnderKeepsOrder(root: nat, places: seq<Place>)
    requires InOrder(places)
    ensures InOrder(Under(root, places))
  {
    forall i, j | 0 <= i < j < |places| ensures Before(Under(root, places)[i], Under(root, places)[j]) {
      var p, q := [root] + places[i].path, [root] + places[j].path;
      assert p[1..] == places[i].path && q[1..] == places[j].path;
      assert Before(places[i], places[j]);
    }
  }

  lemma TreeIsInOrder(tree: Hardware, root: nat)
    ensures InOrder(PlacesOfTree(tree, root))
    decreases tree, 1
  {
    var own, sub := OwnPlaces([root], |tree.sensors|), PlacesOfTrees(tree.subHardware, 0);
    TreesAreInOrder(tree.subHardware, 0);
    UnderKeepsOrder(root, sub);
    PlacesAreSound(tree.subHardware, 0);
    forall p, q | p in own && q in Under(root, sub) ensures Before(p, q) {
      InOwn([root], |tree.sensors|, p);
      InUnder(root, sub, q);
      assert q.path[1..] != [] && [root][1..] == [];
    }
    InOrderConcat(own, Under(root, sub));
  }

  lemma {:induction false} TreesAreInOrder(trees: seq<Hardware>, first: nat)
    ensures InOrder(PlacesOfTrees(trees, first))
    decreases trees, 0
  {
    if trees != [] {
      TreeIsInOrder(trees[0], first);
      TreesAreInOrder(trees[1..], first + 1);
      PlacesOfTreeAreSound(trees[0], first);
      PlacesAreSound(trees[1..], first + 1);
      InOrderConcat(PlacesOfTree(trees[0], first), PlacesOfTrees(trees[1..], first + 1));
    }
  }

  // ---- The walks list what is at the places ----

  /** Entry by entry, what is at the places. */
  predicate ListsFrom(trees: seq<Hardware>, first: nat, places: seq<Place>, entries: seq<Entry>) {
    |entries| == |places| && forall i :: 0 <= i < |places| ==>
      IsPlaceFrom(trees, first, places[i]) && entries[i] == EntryFrom(trees, first, places[i])
  }

  predicate ListsTree(tree: Hardware, root: nat, places: seq<Place>, entries: seq<Entry>) {
    |entries| == |places| && forall i :: 0 <= i < |places| ==>
      IsPlaceOfTree(tree, root, places[i]) && entries[i] == EntryOfTree(tree, root, places[i])
  }

  lemma {:induction false} EntriesAt(hardware: Hardware, sensors: seq<Sensor>)
    ensures |EntriesOf(hardware, sensors)| == |sensors|
    ensures forall i :: 0 <= i < |sensors| ==> EntriesOf(hardware, sensors)[i] == Entry(hardware, sensors[i])
  {
    if sensors != [] {
      EntriesAt(hardware, sensors[1..]);
    }
  }

  lemma TreeIsWalked(tree: Hardware, root: nat)
    ensures ListsTree(tree, root, PlacesOfTree(tree, root), CatalogOfTree(tree))
    decreases tree, 1
  {
    var sub := PlacesOfTrees(tree.subHardware, 0);
    var own, places, entries := OwnPlaces([root], |tree.sensors|), PlacesOfTree(tree, root), CatalogOfTree(tree);
    EntriesAt(tree, tree.sensors);
    TreesAreWalked(tree.subHardware, 0);
    forall i | 0 <= i < |places|
      ensures IsPlaceOfTree(tree, root, places[i]) && entries[i] == EntryOfTree(tree, root, places[i])
    {
      if i >= |own| {
        var p := sub[i - |own|];
        assert places[i] == Place([root] + p.path, p.index) && places[i].path[1..] == p.path;
        assert IsPlaceFrom(tree.subHardware, 0, p);
        SamePlaceFromZero(tree.subHardware, p);
      }
    }
  }

  lemma {:induction false} TreesAreWalked(trees: seq<Hardware>, first: nat)
    ensures ListsFrom(trees, first, PlacesOfTrees(trees, first), CatalogOfTrees(trees))
    decreases trees, 0
  {
    if trees != [] {
      var places, entries := PlacesOfTrees(trees, first), CatalogOfTrees(trees);
      TreeIsWalked(trees[0], first);
      TreesAreWalked(trees[1..], first + 1);
      forall i | 0 <= i < |places|
        ensures IsPlaceFrom(trees, first, places[i]) && entries[i] == EntryFrom(trees, first, places[i])
      {
        FirstOrOther(trees, first, places[i]);
      }
    }
  }

  /** The catalog lists exactly what is at the places of the trees, each once, parents before children. */
  lemma CatalogIsPreOrder(trees: seq<Hardware>) returns (places: seq<Place>)
    ensures IsPreOrder(trees, places) && |CatalogOfTrees(trees)| == |places|
    ensures forall i :: 0 <= i < |places| ==> CatalogOfTrees(trees)[i] == EntryAt(trees, places[i])
  {
    places := PlacesOfTrees(trees, 0);
    PlacesAreSound(trees, 0);
    TreesAreInOrder(trees, 0);
    TreesAreWalked(trees, 0);
    forall p: Place ensures p in places <==> IsPlace(trees, p) {
      SamePlaceFromZero(trees, p);
    }
    forall i | 0 <= i < |places| ensures CatalogOfTrees(trees)[i] == EntryAt(trees, places[i]) {
      assert IsPlaceFrom(trees, 0, places[i]);
      SamePlaceFromZero(trees, places[i]);
    }
  }

  // ---- The samples are those of the catalogued sensors that have a value ----

  /** The sample of each entry with a value, in order. */
  function SamplesOfEntries(entries: seq<Entry>): seq<SensorSample> {
    if entries == [] then []
    else
      var s := entries[0].sensor;
      (if s.value.Some? then [SensorSample("librehw:" + s.identifier, s.value.value, s.min, s.max, "ok")] else [])
      + SamplesOfEntries(entries[1..])
  }

  lemma {:induction false} SamplesOfEntriesConcat(a: seq<Entry>, b: seq<Entry>)
    ensures SamplesOfEntries(a + b) == SamplesOfEntries(a) + SamplesOfEntries(b)
  {
    if a == [] {
      assert a + b == b;
    } else {
      assert (a + b)[1..] == a[1..] + b;
      SamplesOfEntriesConcat(a[1..], b);
    }
  }

  lemma {:induction false} SensorsAreSampled(hardware: Hardware, sensors: seq<Sensor>)
    ensures SamplesOfSensors(sensors) == SamplesOfEntries(EntriesOf(hardware, sensors))
    decreases |sensors|
  {
    if sensors != [] {
      SensorsAreSampled(hardware, sensors[1..]);
      assert EntriesOf(hardware, sensors)[1..] == EntriesOf(hardware, sensors[1..]);
    }
  }

  lemma TreeIsSampled(tree: Hardware)
    ensures SamplesOfTree(tree) == SamplesOfEntries(CatalogOfTree(tree))
    decreases tree, 1
  {
    SensorsAreSampled(tree, tree.sensors);
    TreesAreSampled(tree.subHardware);
    SamplesOfEntriesConcat(EntriesOf(tree, tree.sensors), CatalogOfTrees(tree.subHardware));
  }

  /** A batch holds a sample for each catalogued sensor that has a value, in the order of the catalog. */
  lemma {:induction false} TreesAreSampled(trees: seq<Hardware>)
    ensures SamplesOfTrees(trees) == SamplesOfEntries(CatalogOfTrees(trees))
    decreases trees, 0
  {
    if trees != [] {
      TreeIsSampled(trees[0]);
      TreesAreSampled(trees[1..]);
      SamplesOfEntriesConcat(CatalogOfTree(trees[0]), CatalogOfTrees(trees[1..]));
    }
  }

  predicate IsSampleOf(x: SensorSample, s: Sensor) {
    s.value.Some? && x == SensorSample("librehw:" + s.identifier, s.value.value, s.min, s.max, "ok")
  }

  lemma {:induction false} SampleInEntries(entries: seq<Entry>, x: SensorSample)
    ensures x in SamplesOfEntries(entries) <==> exists i :: 0 <= i < |entries| && IsSampleOf(x, entries[i].sensor)
    decreases |entries|
  {
    if entries != [] {
      var rest := entries[1..];
      SampleInEntries(rest, x);
      if i :| 0 <= i < |rest| && IsSampleOf(x, rest[i].sensor) {
        assert entries[i + 1] == rest[i];
      }
      if i :| 0 <= i < |entries| && IsSampleOf(x, entries[i].sensor) {
        assert i > 0 ==> rest[i - 1] == entries[i];
      }
    }
  }

  /** Every sensor, however deep, that has a value is sampled; and nothing else is. */
  lemma SampledIff(trees: seq<Hardware>, x: SensorSample)
    ensures x in SamplesOfTrees(trees) <==> exists p :: IsPlace(trees, p) && IsSampleOf(x, SensorAt(trees, p))
  {
    var places := CatalogIsPreOrder(trees);
    var entries := CatalogOfTrees(trees);
    TreesAreSampled(trees);
    SampleInEntries(entries, x);
    if p :| IsPlace(trees, p) && IsSampleOf(x, SensorAt(trees, p)) {
      var i :| 0 <= i < |places| && places[i] == p;
      assert entries[i].sensor == SensorAt(trees, p);
    }
    if i :| 0 <= i < |entries| && IsSampleOf(x, entries[i].sensor) {
      assert places[i] in places;
    }
  }

  /** Every sensor, however deep, is catalogued with the hardware it belongs to; and nothing else is. */
  lemma CataloguedIff(trees: seq<Hardware>, e: Entry)
    ensures e in CatalogOfTrees(trees) <==> exists p :: IsPlace(trees, p) && e == EntryAt(trees, p)
  {
    var places := CatalogIsPreOrder(trees);
    var entries := CatalogOfTrees(trees);
    if p :| IsPlace(trees, p) && e == EntryAt(trees, p) {
      var i :| 0 <= i < |places| && places[i] == p;
      assert entries[i] == e;
    }
    if i :| 0 <= i < |entries| && entries[i] == e {
      assert places[i] in places;
    }
  }
}
