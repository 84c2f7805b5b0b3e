/** The map daemon: adding a track to and deleting it from the bubbles of every layer. */
module Bubbles {
  import opened Wrappers
  import opened Distances
  import opened Ordering

  /** A bubble at a place of the map.  `area` is the square of the stored size, so that
      the size factor sqrt(c'/c) becomes the factor c'/c. */
  datatype Bubble = Bubble(x: real, y: real, count: int, area: real)

  /** The columns of a track that the daemon maintains: its place and, for every layer,
      the bubble it belongs to.  Layer 0 has no bubbles. */
  datatype Track = Track(geom: Option<(int, int)>, bubbleIds: seq<Option<int>>)

  type Layer = map<int, Bubble>

  // --------------------------------------------------------------- one layer

  function Members(refs: map<int, Option<int>>, id: int): set<int> {
    set t | t in refs && refs[t] == Some(id)
  }

  /** Counts are the numbers of tracks that point to a bubble, no bubble is empty and no
      reference dangles. */
  ghost predicate LayerOk(layer: Layer, refs: map<int, Option<int>>) {
    && (forall id :: id in layer ==> layer[id].count == |Members(refs, id)| && layer[id].count >= 1)
    && (forall t :: t in refs && refs[t].Some? ==> refs[t].value in layer)
  }

  /** No bubble appears, and size squared over count does not change while a bubble lives. */
  ghost predicate Evolved(before: Layer, after: Layer) {
    && after.Keys <= before.Keys
    && forall id :: id in after && before[id].count >= 1 ==>
         && after[id].count >= 1
         && before[id].area / before[id].count as real == after[id].area / after[id].count as real
  }

  function Resized(b: Bubble, count': int): Bubble
    requires b.count != 0
  {
    b.(count := count', area := b.area * (count' as real / b.count as real))
  }

  function Grow(layer: Layer, id: int): Layer
    requires id in layer && layer[id].count >= 1
  {
    layer[id := Resized(layer[id], layer[id].count + 1)]
  }

  function Shrink(layer: Layer, id: int): Layer
    requires id in layer && layer[id].count >= 1
  {
    if layer[id].count > 1 then layer[id := Resized(layer[id], layer[id].count - 1)] else layer - {id}
  }

  lemma ResizedDensity(b: Bubble, count': int)
    requires b.count >= 1 && count' >= 1
    ensures Resized(b, count').area / count' as real == b.area / b.count as real
  {
    var a, c, c' := b.area, b.count as real, count' as real;
    assert a * (c' / c) / c' == a / c;
  }

  /** Adding a track to a bubble keeps the layer consistent if and only if the track was
      in no bubble before. */
  lemma GrowIff(layer: Layer, refs: map<int, Option<int>>, t: int, id: int)
    requires LayerOk(layer, refs) && t in refs && id in layer
    ensures LayerOk(Grow(layer, id), refs[t := Some(id)]) <==> refs[t] == None
    ensures Evolved(layer, Grow(layer, id))
  {
    ResizedDensity(layer[id], layer[id].count + 1);
    MembersAfterAdd(refs, t, id);
    var layer', refs' := Grow(layer, id), refs[t := Some(id)];
    if refs[t] == None {
      forall i | i in layer' ensures layer'[i].count == |Members(refs', i)| && layer'[i].count >= 1 {
        assert t !in Members(refs, i);
        assert i != id ==> Members(refs', i) == Members(refs, i);
      }
    } else if refs[t] == Some(id) {
      assert Members(refs', id) == Members(refs, id) && layer'[id].count == layer[id].count + 1;
    } else {
      var old' := refs[t].value;
      assert layer'[old'] == layer[old'];
      assert t in Members(refs, old') && |Members(refs, old') - {t}| == |Members(refs, old')| - 1;
    }
  }

  lemma MembersAfterAdd(refs: map<int, Option<int>>, t: int, id: int)
    requires t in refs
    ensures forall i :: Members(refs[t := Some(id)], i)
                        == if i == id then Members(refs, i) + {t} else Members(refs, i) - {t}
  {
  }

  /** Removing a track from its bubble keeps the layer consistent. */
  lemma ShrinkOk(layer: Layer, refs: map<int, Option<int>>, t: int, id: int)
    requires LayerOk(layer, refs) && t in refs && refs[t] == Some(id) && id in layer
    ensures LayerOk(Shrink(layer, id), refs[t := None])
    ensures Evolved(layer, Shrink(layer, id))
  {
    var layer', refs' := Shrink(layer, id), refs[t := None];
    if layer[id].count > 1 {
      ResizedDensity(layer[id], layer[id].count - 1);
    }
    assert t in Members(refs, id);
    forall i ensures Members(refs', i) == Members(refs, i) - {t} {
    }
    forall i | i in layer' ensures layer'[i].count == |Members(refs', i)| && layer'[i].count >= 1 {
      if i != id {
        assert t !in Members(refs, i) && Members(refs', i) == Members(refs, i);
      }
    }
    forall u | u in refs' && refs'[u].Some? ensures refs'[u].value in layer' {
      if refs[u].value == id && layer[id].count == 1 {
        assert {t, u} <= Members(refs, id);
        SubsetSize({t, u}, Members(refs, id));
      }
    }
  }

  lemma SubsetSize(a: set<int>, b: set<int>)
    requires a <= b
    ensures |a| <= |b|
  {
    assert b == a + (b - a) && |a + (b - a)| == |a| + |b - a|;
  }

  /** Deleting a track right after adding it restores its bubble, size included. */
  lemma ShrinkUndoesGrow(layer: Layer, id: int)
    requires id in layer && layer[id].count >= 1
    ensures Shrink(Grow(layer, id), id) == layer
  {
    var b := layer[id];
    var a, c := b.area, b.count as real;
    var p, q := (c + 1.0) / c, c / (c + 1.0);
    assert p * q == 1.0;
    assert a * p * q == a * (p * q);
    assert Resized(Resized(b, b.count + 1), b.count) == b;
  }

  // ------------------------------------------------------------- the best unit

  /** The first index of a least distance; -1 if there is none below the start value. */
  method BestUnit(ds: seq<real>, start: real) returns (best: int)
    ensures -1 <= best < |ds|
    ensures best == -1 <==> forall i :: 0 <= i < |ds| ==> ds[i] >= start
    ensures best >= 0 ==> ds[best] < start && forall i :: 0 <= i < |ds| ==> ds[best] <= ds[i]
    ensures best >= 0 ==> forall i :: 0 <= i < best ==> ds[best] < ds[i]
  {
    var lowest := start;
    best := -1;
    var i := 0;
    while i < |ds|
      invariant 0 <= i <= |ds| && -1 <= best < i
      invariant best == -1 ==> lowest == start && forall j :: 0 <= j < i ==> ds[j] >= start
      invariant best >= 0 ==> lowest == ds[best] < start && forall j :: 0 <= j < i ==> ds[best] <= ds[j]
      invariant best >= 0 ==> forall j :: 0 <= j < best ==> ds[best] < ds[j]
    {
      if ds[i] < lowest {
        lowest := ds[i];
        best := i;
      }
      i := i + 1;
    }
  }

  function Product(r: real, s: real): real {
    r * s
  }

  function Square(r: real): real {
    Product(r, r)
  }

  function SquaredDistance(b: Bubble, x: int, y: int): real {
    Square(b.x - x as real) + Square(b.y - y as real)
  }

  /** The distance is zero exactly at the bubble's place, does not change when both axes are exchanged,
      is the offset on a common row, and obeys Pythagoras with the corner of both. */
  lemma DistanceLaws(b: Bubble, x: int, y: int)
    ensures SquaredDistance(b, x, y) >= 0.0
    ensures SquaredDistance(b, x, y) == 0.0 <==> b.x == x as real && b.y == y as real
    ensures SquaredDistance(b.(x := b.y, y := b.x), y, x) == SquaredDistance(b, x, y)
    ensures b.y == y as real ==> SquaredDistance(b, x, y) == (b.x - x as real) * (b.x - x as real)
    ensures SquaredDistance(b, x, y)
         == SquaredDistance(b.(x := x as real), x, y) + SquaredDistance(b.(y := y as real), x, y)
  {
    hide Square;
    SquareLaws(b.x - x as real);
    SquareLaws(b.y - y as real);
    SquareLaws(0.0);
  }

  lemma SquareLaws(r: real)
    ensures Square(r) == r * r >= 0.0
    ensures Square(r) == 0.0 <==> r == 0.0
  {
    if r != 0.0 {
      SquarePositive(r);
    }
  }

  lemma SquarePositive(r: real)
    requires r != 0.0
    ensures Square(r) > 0.0
  {
    if r > 0.0 {
      ProductPositive(r, r);
    } else {
      ProductOfNegatives(r, r);
    }
  }

  lemma ProductPositive(r: real, s: real)
    requires r > 0.0 && s > 0.0
    ensures Product(r, s) > 0.0
  {
  }

  lemma ProductOfNegatives(r: real, s: real)
    requires r < 0.0 && s < 0.0
    ensures Product(r, s) > 0.0
  {
  }

  function Abs(r: real): real {
    if r < 0.0 then -r else r
  }

  lemma SquareGrows(r: real, s: real)
    requires Abs(r) <= Abs(s)
    ensures Square(r) <= Square(s)
    ensures Square(r) == Square(s) <==> Abs(r) == Abs(s)
  {
    var p, q := Abs(r), Abs(s);
    SquareOfAbs(r);
    SquareOfAbs(s);
    if p < q {
      ProductPositive(q - p, q + p);
      SquareDifference(p, q);
    }
  }

  lemma SquareOfAbs(r: real)
    ensures Square(Abs(r)) == Square(r)
  {
  }

  lemma SquareDifference(p: real, q: real)
    ensures Square(q) - Square(p) == Product(q - p, q + p)
  {
  }

  /** It grows strictly with either offset. */
  lemma DistanceGrows(a: Bubble, b: Bubble, x: int, y: int)
    requires Abs(a.x - x as real) <= Abs(b.x - x as real) && Abs(a.y - y as real) <= Abs(b.y - y as real)
    ensures SquaredDistance(a, x, y) <= SquaredDistance(b, x, y)
    ensures SquaredDistance(a, x, y) == SquaredDistance(b, x, y) <==>
      Abs(a.x - x as real) == Abs(b.x - x as real) && Abs(a.y - y as real) == Abs(b.y - y as real)
  {
    SquareGrows(a.x - x as real, b.x - x as real);
    SquareGrows(a.y - y as real, b.y - y as real);
  }

  predicate Within(b: Bubble, x: int, y: int, range: nat) {
    SquaredDistance(b, x, y) <= (range * range) as real
  }

  /** Nearer first, the larger bubble first among equally near ones. */
  predicate Precedes(a: Bubble, b: Bubble, x: int, y: int) {
    || SquaredDistance(a, x, y) < SquaredDistance(b, x, y)
    || (SquaredDistance(a, x, y) == SquaredDistance(b, x, y) && a.area >= b.area)
  }

  /** A bubble within the range that no other one there precedes. */
  ghost predicate NearestIn(layer: Layer, x: int, y: int, range: nat, id: int) {
    && id in layer && Within(layer[id], x, y, range)
    && forall i :: i in layer && Within(layer[i], x, y, range) ==> Precedes(layer[id], layer[i], x, y)
  }

  ghost predicate NoneIn(layer: Layer, x: int, y: int, range: nat) {
    forall i :: i in layer ==> !Within(layer[i], x, y, range)
  }

  /** What the search finds, with a second try in twice the range. */
  ghost predicate Chosen(layer: Layer, x: int, y: int, range: nat, id: Option<int>) {
    match id
    case None => NoneIn(layer, x, y, range * 2)
    case Some(i) =>
      || NearestIn(layer, x, y, range, i)
      || (NoneIn(layer, x, y, range) && NearestIn(layer, x, y, range * 2, i))
  }

  /** On coordinates: the place of the bubble is within the range, and no bubble is nearer or as near
      and larger. */
  ghost predicate NearestByCoordinates(layer: Layer, x: int, y: int, range: nat, id: int) {
    && id in layer
    && var d := Square(layer[id].x - x as real) + Square(layer[id].y - y as real);
    && d <= Square(range as real)
    && forall i :: i in layer ==>
         var e := Square(layer[i].x - x as real) + Square(layer[i].y - y as real);
         d < e || (d == e && layer[id].area >= layer[i].area)
  }

  ghost predicate NoneByCoordinates(layer: Layer, x: int, y: int, range: nat) {
    forall i :: i in layer ==> Square(layer[i].x - x as real) + Square(layer[i].y - y as real) > Square(range as real)
  }

  lemma SquareOfRange(range: nat)
    ensures (range * range) as real == Square(range as real) <= Square((range * 2) as real)
    ensures range * range <= (range * 2) * (range * 2)
  {
    SquareGrows(range as real, (range * 2) as real);
  }

  lemma NearestOnMap(layer: Layer, x: int, y: int, range: nat, id: int)
    requires NearestIn(layer, x, y, range, id)
    ensures NearestByCoordinates(layer, x, y, range, id)
  {
    hide Square;
    SquareOfRange(range);
  }

  lemma NoneOnMap(layer: Layer, x: int, y: int, range: nat)
    requires NoneIn(layer, x, y, range)
    ensures NoneByCoordinates(layer, x, y, range)
  {
    hide Square;
    SquareOfRange(range);
  }

  /** The second try makes no difference: the chosen bubble is the nearest of all. */
  lemma ChosenOnMap(layer: Layer, x: int, y: int, range: nat, id: int)
    requires Chosen(layer, x, y, range, Some(id))
    ensures NearestByCoordinates(layer, x, y, range * 2, id)
  {
    hide Square;
    if NearestIn(layer, x, y, range, id) {
      NearestOnMap(layer, x, y, range, id);
      SquareOfRange(range);
    } else {
      NearestOnMap(layer, x, y, range * 2, id);
    }
  }

  /** No bubble stands at smaller offsets from the place than the nearest one. */
  lemma NoneNearerOnBothAxes(layer: Layer, x: int, y: int, range: nat, id: int, i: int)
    requires NearestByCoordinates(layer, x, y, range, id) && i in layer
    requires Abs(layer[i].x - x as real) <= Abs(layer[id].x - x as real)
    requires Abs(layer[i].y - y as real) <= Abs(layer[id].y - y as real)
    ensures Abs(layer[i].x - x as real) == Abs(layer[id].x - x as real)
    ensures Abs(layer[i].y - y as real) == Abs(layer[id].y - y as real)
    ensures layer[id].area >= layer[i].area
  {
    SquareGrows(layer[i].x - x as real, layer[id].x - x as real);
    SquareGrows(layer[i].y - y as real, layer[id].y - y as real);
  }

  /** The first place of a least distance below the start value. */
  ghost predicate BestPlace(ds: seq<real>, start: real, i: int) {
    && 0 <= i < |ds| && ds[i] < start
    && (forall j :: 0 <= j < |ds| ==> ds[i] <= ds[j])
    && (forall j :: 0 <= j < i ==> ds[i] < ds[j])
  }

  /** The nearest bubble of a layer within `range`. */
  method GetNearestBubble(layer: Layer, x: int, y: int, range: nat) returns (id: Option<int>)
    ensures id.None? ==> NoneIn(layer, x, y, range)
    ensures id.Some? ==> NearestIn(layer, x, y, range, id.value)
    ensures id.Some? ==> NearestByCoordinates(layer, x, y, range, id.value)
    ensures id.None? ==> NoneByCoordinates(layer, x, y, range)
  {
    hide SquaredDistance, Within, NearestByCoordinates, NoneByCoordinates;
    id := None;
    var todo: set<int> := layer.Keys;
    while exists i :: i in todo
      invariant todo <= layer.Keys
      invariant id.None? ==> forall i :: i in layer && i !in todo ==> !Within(layer[i], x, y, range)
      invariant id.Some? ==> id.value in layer && Within(layer[id.value], x, y, range)
      invariant id.Some? ==> forall i :: i in layer && i !in todo && Within(layer[i], x, y, range) ==>
        Precedes(layer[id.value], layer[i], x, y)
      decreases todo
    {
      var i :| i in todo;
      if Within(layer[i], x, y, range) && (id.None? || !Precedes(layer[id.value], layer[i], x, y)) {
        id := Some(i);
      }
      todo := todo - {i};
    }
    if id.Some? {
      NearestOnMap(layer, x, y, range, id.value);
    } else {
      NoneOnMap(layer, x, y, range);
    }
  }

  /** The bubble for a track on a layer: the nearest one in range, or else in twice the range. */
  method ChooseBubble(layer: Layer, x: int, y: int, range: nat) returns (id: Option<int>)
    ensures Chosen(layer, x, y, range, id)
  {
    hide NearestIn, NoneIn;
    id := GetNearestBubble(layer, x, y, range);
    if id.None? {
      id := GetNearestBubble(layer, x, y, range * 2);
    }
  }

  // -------------------------------------------------------------- the database

  /** The bubble references of one layer. */
  function Column(tracks: map<int, Track>, l: nat): map<int, Option<int>> {
    map t | t in tracks && l < |tracks[t].bubbleIds| :: tracks[t].bubbleIds[l]
  }

  lemma ProductMonotone(a: nat, b: nat, d: nat)
    requires a >= b
    ensures a * d >= b * d
  {
  }

  /** What adding a track does to one layer of the map. */
  lemma LayerAfterAdd(before: Layer, after: Layer, tracks: map<int, Track>, t: int, added: Track, l: nat, id: int)
    requires t in tracks && l < |tracks[t].bubbleIds| && l < |added.bubbleIds| && added.bubbleIds[l] == Some(id)
    requires LayerOk(before, Column(tracks, l))
    requires id in before && before[id].count >= 1 && after == Grow(before, id)
    ensures Evolved(before, after)
    ensures LayerOk(after, Column(tracks[t := added], l)) <==> tracks[t].bubbleIds[l] == None
  {
    hide LayerOk, Evolved, Grow;
    GrowIff(before, Column(tracks, l), t, id);
    assert Column(tracks[t := added], l) == Column(tracks, l)[t := Some(id)];
  }

  class MapDatabase {
    const numberOfLayers: nat
    const dimx: nat
    const dimy: nat
    const range: nat
    /** The distances from a track's feature vector to all prototype vectors. */
    const distances: int -> seq<real>
    var bubbles: seq<Layer>
    var tracks: map<int, Track>

    constructor (numberOfLayers: nat, dimx: nat, dimy: nat, range: nat, distances: int -> seq<real>,
                 bubbles: seq<Layer>, tracks: map<int, Track>)
      ensures this.numberOfLayers == numberOfLayers && this.dimx == dimx && this.dimy == dimy
      ensures this.distances == distances && this.range == range
      ensures this.bubbles == bubbles && this.tracks == tracks
    {
      this.numberOfLayers, this.dimx, this.dimy, this.range := numberOfLayers, dimx, dimy, range;
      this.distances := distances;
      this.bubbles, this.tracks := bubbles, tracks;
    }

    ghost predicate Shape()
      reads this
    {
      && |bubbles| == numberOfLayers >= 1
      && (forall t :: t in tracks ==> |tracks[t].bubbleIds| == numberOfLayers)
      && (forall t :: t in tracks ==> |distances(t)| == dimx * dimy)
    }

    ghost predicate Consistent()
      reads this
    {
      Shape() && forall l :: 1 <= l < numberOfLayers ==> LayerOk(bubbles[l], Column(tracks, l))
    }

    ghost predicate Unplaced(t: int)
      requires t in tracks
      reads this
    {
      forall l :: 1 <= l < |tracks[t].bubbleIds| ==> tracks[t].bubbleIds[l] == None
    }

    ghost predicate Placed(t: int)
      requires t in tracks
      reads this
    {
      forall l :: 1 <= l < |tracks[t].bubbleIds| ==> tracks[t].bubbleIds[l].Some?
    }

    /** The track was put at the place of its best unit. */
    ghost predicate AtBestUnit(t: int)
      requires t in tracks
      reads this
    {
      && tracks[t].geom.Some?
      && var (x, y) := tracks[t].geom.value;
      && 0 <= x < dimx && 0 <= y < dimy && BestPlace(distances(t), MAX_DOUBLE, y * dimx + x)
    }

    /** The track was put into the chosen bubble of a layer, which has grown by it. */
    ghost predicate PutInto(t: int, l: nat, before: Layer, after: Layer)
      requires t in tracks && l < |tracks[t].bubbleIds| && tracks[t].geom.Some?
      reads this
    {
      var id, (x, y) := tracks[t].bubbleIds[l], tracks[t].geom.value;
      && id.Some? && Chosen(before, x, y, range, id)
      && id.value in before && before[id.value].count >= 1 && after == Grow(before, id.value)
    }

    /** The add job inside its transaction; false stands for an exception: the track is unknown, it has
        no best unit or a layer has no bubble even in twice the range of it. */
    method PerformAddTrack(t: int) returns (ok: bool)
      requires Consistent()
      modifies this
      ensures Shape()
      ensures ok ==> t in old(tracks) && t in tracks && tracks == old(tracks)[t := tracks[t]]
      ensures ok ==> AtBestUnit(t)
      ensures ok ==> forall l :: 1 <= l < numberOfLayers ==> PutInto(t, l, old(bubbles)[l], bubbles[l])
      ensures ok ==> forall l :: 1 <= l < numberOfLayers ==>
        var id, (x, y) := tracks[t].bubbleIds[l], tracks[t].geom.value;
        id.Some? && NearestByCoordinates(old(bubbles)[l], x, y, range * 2, id.value)
      ensures !ok ==>
        || t !in old(tracks)
        || (forall i :: 0 <= i < |distances(t)| ==> distances(t)[i] >= MAX_DOUBLE)
        || exists x, y, l :: 1 <= l < numberOfLayers && 0 <= x < dimx && 0 <= y < dimy
                             && BestPlace(distances(t), MAX_DOUBLE, y * dimx + x)
                             && NoneByCoordinates(old(bubbles)[l], x, y, range * 2)
    {
      if t !in tracks {
        return false;
      }
      var best := BestUnit(distances(t), MAX_DOUBLE);
      if best < 0 {
        return false;
      }
      hide NearestIn, NoneIn, BestPlace, Chosen, NearestByCoordinates, NoneByCoordinates;
      ghost var before := bubbles;
      assert BestPlace(distances(t), MAX_DOUBLE, best) by {
        BestIsPlace(distances(t), best);
      }
      var x, y := Position(best);
      var ids;
      ok, ids := GrowBubbles(x, y);
      if ok {
        tracks := tracks[t := Track(Some((x, y)), ids)];
        forall l | 1 <= l < numberOfLayers ensures NearestByCoordinates(before[l], x, y, range * 2, ids[l].value) {
          ChosenOnMap(before[l], x, y, range, ids[l].value);
        }
      }
    }

    /** Grows the chosen bubble of every layer; false when a layer has none. */
    method GrowBubbles(x: nat, y: nat) returns (ok: bool, ids: seq<Option<int>>)
      requires Consistent()
      modifies this`bubbles
      ensures Shape()
      ensures ok ==> |ids| == numberOfLayers
      ensures ok ==> forall l :: 1 <= l < numberOfLayers ==>
        && ids[l].Some? && Chosen(old(bubbles)[l], x, y, range, ids[l])
        && ids[l].value in old(bubbles)[l] && old(bubbles)[l][ids[l].value].count >= 1
        && bubbles[l] == Grow(old(bubbles)[l], ids[l].value)
      ensures !ok ==> exists l :: 1 <= l < numberOfLayers && NoneByCoordinates(old(bubbles)[l], x, y, range * 2)
    {
      hide NearestIn, NoneIn, Precedes, Within, NoneByCoordinates;
      ids := [None];
      var l := 1;
      while l < numberOfLayers
        invariant 1 <= l <= numberOfLayers && |ids| == l && |bubbles| == numberOfLayers
        invariant forall k :: l <= k < numberOfLayers ==> bubbles[k] == old(bubbles)[k]
        invariant forall k :: 1 <= k < l ==>
          && ids[k].Some? && Chosen(old(bubbles)[k], x, y, range, ids[k])
          && ids[k].value in old(bubbles)[k] && old(bubbles)[k][ids[k].value].count >= 1
          && bubbles[k] == Grow(old(bubbles)[k], ids[k].value)
      {
        assert LayerOk(old(bubbles)[l], old(Column(tracks, l)));
        var id := ChooseBubble(bubbles[l], x, y, range);
        if id.None? {
          NoneOnMap(bubbles[l], x, y, range * 2);
          return false, ids;
        }
        ChosenIsThere(bubbles[l], x, y, range, id.value);
        bubbles := bubbles[l := Grow(bubbles[l], id.value)];
        ids := ids + [id];
        l := l + 1;
      }
      ok := true;
    }

    static lemma ChosenIsThere(layer: Layer, x: int, y: int, range: nat, id: int)
      requires Chosen(layer, x, y, range, Some(id))
      ensures id in layer
    {
    }

    static lemma BestIsPlace(ds: seq<real>, best: int)
      requires 0 <= best < |ds| && ds[best] < MAX_DOUBLE
      requires forall i :: 0 <= i < |ds| ==> ds[best] <= ds[i]
      requires forall i :: 0 <= i < best ==> ds[best] < ds[i]
      ensures BestPlace(ds, MAX_DOUBLE, best)
    {
    }

    /** The place of a prototype on the map. */
    method Position(i: nat) returns (x: nat, y: nat)
      requires i < dimx * dimy
      ensures x < dimx && y < dimy && y * dimx + x == i
    {
      assert dimx > 0;
      y := i / dimx;
      x := i % dimx;
      if y >= dimy {
        ProductMonotone(y, dimy, dimx);
      }
    }

    /** The delete job inside its transaction; false stands for an exception. */
    method PerformDeleteTrack(t: int) returns (ok: bool)
      requires Consistent()
      modifies this
      ensures Shape()
      ensures ok <==> t in old(tracks) && old(Placed(t))
      ensures ok ==> t in tracks && tracks == old(tracks)[t := tracks[t]] && tracks[t].geom == None && Unplaced(t)
      ensures ok ==> forall l :: 1 <= l < numberOfLayers ==>
        (var id := old(tracks)[t].bubbleIds[l].value;
         id in old(bubbles)[l] && old(bubbles)[l][id].count >= 1 && bubbles[l] == Shrink(old(bubbles)[l], id))
    {
      if t !in tracks {
        return false;
      }
      ghost var before := tracks[t].bubbleIds;
      tracks := tracks[t := tracks[t].(geom := None)];
      var l := 1;
      while l < numberOfLayers
        invariant 1 <= l <= numberOfLayers && Shape()
        invariant t in tracks && tracks == old(tracks)[t := tracks[t]] && tracks[t].geom == None
        invariant forall k :: l <= k < numberOfLayers ==>
          bubbles[k] == old(bubbles)[k] && tracks[t].bubbleIds[k] == before[k]
        invariant forall k :: 1 <= k < l ==>
          (before[k].Some? && before[k].value in old(bubbles)[k] && old(bubbles)[k][before[k].value].count >= 1
           && tracks[t].bubbleIds[k] == None && bubbles[k] == Shrink(old(bubbles)[k], before[k].value))
      {
        assert LayerOk(old(bubbles)[l], old(Column(tracks, l)));
        assert old(Column(tracks, l))[t] == before[l];
        var id := tracks[t].bubbleIds[l];
        if id.None? || id.value !in bubbles[l] {
          return false;
        }
        tracks := tracks[t := tracks[t].(bubbleIds := tracks[t].bubbleIds[l := None])];
        bubbles := bubbles[l := Shrink(bubbles[l], id.value)];
        l := l + 1;
      }
      ok := true;
    }

    /** An add job with its transaction.  It keeps the counts right if and only if the
        track was in no bubble. */
    method ProcessAddJob(t: int) returns (ok: bool)
      requires Consistent()
      modifies this
      ensures !ok ==> bubbles == old(bubbles) && tracks == old(tracks)
      ensures ok ==> t in old(tracks) && (Consistent() <==> old(Unplaced(t)))
      ensures ok ==> t in tracks && tracks == old(tracks)[t := tracks[t]]
      ensures ok ==> t in tracks && Placed(t) && AtBestUnit(t) && forall l :: 1 <= l < numberOfLayers ==>
        |bubbles| == |old(bubbles)| == numberOfLayers && Evolved(old(bubbles)[l], bubbles[l])
    {
      hide Chosen, BestPlace, LayerOk, Evolved, Grow, Column;
      ghost var bubbles0, tracks0 := bubbles, tracks;
      var savedBubbles, savedTracks := bubbles, tracks;
      ok := PerformAddTrack(t);
      if !ok {
        bubbles, tracks := savedBubbles, savedTracks;
        return;
      }
      forall l | 1 <= l < numberOfLayers
        ensures tracks[t].bubbleIds[l].Some? && Evolved(bubbles0[l], bubbles[l])
        ensures LayerOk(bubbles[l], Column(tracks, l)) <==> tracks0[t].bubbleIds[l] == None
      {
        assert PutInto(t, l, bubbles0[l], bubbles[l]);
        LayerAfterAdd(bubbles0[l], bubbles[l], tracks0, t, tracks[t], l, tracks[t].bubbleIds[l].value);
      }
    }

    /** A delete job with its transaction. */
    method ProcessDeleteJob(t: int) returns (ok: bool)
      requires Consistent()
      modifies this
      ensures Consistent()
      ensures ok <==> t in old(tracks) && old(Placed(t))
      ensures !ok ==> bubbles == old(bubbles) && tracks == old(tracks)
      ensures ok ==> t in tracks && tracks == old(tracks)[t := tracks[t]]
      ensures ok ==> t in tracks && Unplaced(t) && forall l :: 1 <= l < numberOfLayers ==>
        |bubbles| == |old(bubbles)| == numberOfLayers && Evolved(old(bubbles)[l], bubbles[l])
    {
      ghost var bubbles0, tracks0 := bubbles, tracks;
      var savedBubbles, savedTracks := bubbles, tracks;
      ok := PerformDeleteTrack(t);
      if !ok {
        bubbles, tracks := savedBubbles, savedTracks;
        return;
      }
      forall l | 1 <= l < numberOfLayers
        ensures Evolved(bubbles0[l], bubbles[l])
        ensures LayerOk(bubbles[l], Column(tracks, l))
      {
        assert LayerOk(bubbles0[l], Column(tracks0, l));
        assert Column(tracks0, l)[t] == tracks0[t].bubbleIds[l];
        ShrinkOk(bubbles0[l], Column(tracks0, l), t, tracks0[t].bubbleIds[l].value);
        assert Column(tracks, l) == Column(tracks0, l)[t := None];
      }
    }
  }

  datatype Job = AddTrack(track: int) | DeleteTrack(track: int)

  /** The tracks of the add jobs, in order. */
  function Adds(jobs: seq<Job>): seq<int> {
    if jobs == [] then []
    else
      var j := jobs[|jobs| - 1];
      Adds(jobs[..|jobs| - 1]) + if j.AddTrack? then [j.track] else []
  }

  lemma {:induction false} AddsMembers(jobs: seq<Job>)
    ensures forall t :: t in Adds(jobs) <==> AddTrack(t) in jobs
  {
    if jobs != [] {
      AddsMembers(jobs[..|jobs| - 1]);
      assert jobs == jobs[..|jobs| - 1] + [jobs[|jobs| - 1]];
    }
  }

  /** Behind an add job of a list that adds no track twice, there is none of the same track. */
  lemma {:induction false} AddedOnce(jobs: seq<Job>, i: nat, j: nat)
    requires Distinct(Adds(jobs)) && i < j < |jobs| && jobs[i].AddTrack? && jobs[j].AddTrack?
    ensures jobs[i].track != jobs[j].track
  {
    var init, last := jobs[..|jobs| - 1], jobs[|jobs| - 1];
    assert Adds(jobs) == Adds(init) + if last.AddTrack? then [last.track] else [];
    assert forall m :: 0 <= m < |Adds(init)| ==> Adds(jobs)[m] == Adds(init)[m];
    if j == |jobs| - 1 {
      AddsMembers(init);
      assert init[i] == jobs[i] && jobs[i] in init;
      var m :| 0 <= m < |Adds(init)| && Adds(init)[m] == jobs[i].track;
      assert Adds(jobs)[m] != Adds(jobs)[|Adds(init)|];
    } else {
      AddedOnce(init, i, j);
    }
  }

  /** Any run of jobs that adds no track twice and none that is in a bubble at the start: the counts
      stay right throughout, and so does the size of every bubble that survives. */
  method RunJobs(db: MapDatabase, jobs: seq<Job>)
    requires db.Consistent() && Distinct(Adds(jobs))
    requires forall t :: t in Adds(jobs) && t in db.tracks ==> db.Unplaced(t)
    modifies db
    ensures db.Consistent()
    ensures forall l :: 1 <= l < db.numberOfLayers ==> Evolved(old(db.bubbles)[l], db.bubbles[l])
  {
    AddsMembers(jobs);
    for i := 0 to |jobs|
      invariant db.Consistent()
      invariant forall j :: i <= j < |jobs| && jobs[j].AddTrack? && jobs[j].track in db.tracks ==>
        db.Unplaced(jobs[j].track)
      invariant forall l :: 1 <= l < db.numberOfLayers ==> Evolved(old(db.bubbles)[l], db.bubbles[l])
    {
      forall j | i < j < |jobs| && jobs[i].AddTrack? && jobs[j].AddTrack? ensures jobs[i].track != jobs[j].track {
        AddedOnce(jobs, i, j);
      }
      RunJob(db, jobs[i]);
    }
  }

  method RunJob(db: MapDatabase, job: Job)
    requires db.Consistent() && (job.AddTrack? && job.track in db.tracks ==> db.Unplaced(job.track))
    modifies db
    ensures db.Consistent()
    ensures forall l :: 1 <= l < db.numberOfLayers ==> Evolved(old(db.bubbles)[l], db.bubbles[l])
    ensures db.tracks.Keys == old(db.tracks).Keys
    ensures forall t :: t in db.tracks && old(db.Unplaced(t)) && job != AddTrack(t) ==> db.Unplaced(t)
  {
    match job {
      case AddTrack(t) =>
        var ok := db.ProcessAddJob(t);
      case DeleteTrack(t) =>
        var ok := db.ProcessDeleteJob(t);
    }
  }
}
