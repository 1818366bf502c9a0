/** The navigator (DNavigate): the ordered stack of layers, built as the MOTE
    group, then the LINK group, then the FIELD group, reordered by moving one
    layer up or down, with every layer's zIndex kept equal to its position. */
module Navigation {
  import opened Basics
  import opened Motes
  import opened Layers

  /** `list.remove(i)` */
  function RemoveAt<T>(s: seq<T>, i: int): (r: seq<T>)
    requires 0 <= i < |s|
    ensures |r| == |s| - 1
    ensures forall k :: 0 <= k < i ==> r[k] == s[k]
    ensures forall k :: i <= k < |r| ==> r[k] == s[k + 1]
  {
    s[..i] + s[i + 1..]
  }

  /** `list.add(i, x)` */
  function InsertAt<T>(s: seq<T>, i: int, x: T): (r: seq<T>)
    requires 0 <= i <= |s|
    ensures |r| == |s| + 1 && r[i] == x
    ensures forall k :: 0 <= k < i ==> r[k] == s[k]
    ensures forall k :: i < k < |r| ==> r[k] == s[k - 1]
  {
    s[..i] + [x] + s[i..]
  }

  /** The sequence with the neighbours at `i` and `i + 1` exchanged. */
  function SwapAdjacent<T>(s: seq<T>, i: int): (r: seq<T>)
    requires 0 <= i < |s| - 1
    ensures |r| == |s| && r[i] == s[i + 1] && r[i + 1] == s[i]
    ensures forall k :: 0 <= k < |s| && k != i && k != i + 1 ==> r[k] == s[k]
  {
    s[..i] + [s[i + 1], s[i]] + s[i + 2..]
  }

  /** Exchanging neighbours permutes the sequence. */
  lemma SwapAdjacentPermutes<T>(s: seq<T>, i: int)
    requires 0 <= i < |s| - 1
    ensures multiset(SwapAdjacent(s, i)) == multiset(s)
  {
    assert s == s[..i] + [s[i], s[i + 1]] + s[i + 2..];
  }

  /** Taking out the element at `i + 1` and putting it back at `i`
      exchanges it with the neighbour before it. */
  lemma RemoveInsertBefore<T>(s: seq<T>, i: int)
    requires 0 <= i < |s| - 1
    ensures InsertAt(RemoveAt(s, i + 1), i, s[i + 1]) == SwapAdjacent(s, i)
  {
    var a := InsertAt(RemoveAt(s, i + 1), i, s[i + 1]);
    forall k | i + 1 < k < |a| ensures a[k] == s[k] {
      assert a[k] == RemoveAt(s, i + 1)[k - 1];
    }
  }

  /** Taking out the element at `i` and putting it back at `i + 1`
      exchanges it with the neighbour after it. */
  lemma RemoveInsertAfter<T>(s: seq<T>, i: int)
    requires 0 <= i < |s| - 1
    ensures InsertAt(RemoveAt(s, i), i + 1, s[i]) == SwapAdjacent(s, i)
  {
    var a := InsertAt(RemoveAt(s, i), i + 1, s[i]);
    assert a[i] == RemoveAt(s, i)[i] == s[i + 1];
  }

  /** Moving a layer up and then moving it back down restores the order. */
  lemma SwapAdjacentInvolution<T>(s: seq<T>, i: int)
    requires 0 <= i < |s| - 1
    ensures SwapAdjacent(SwapAdjacent(s, i), i) == s
  {
    var r := SwapAdjacent(SwapAdjacent(s, i), i);
    forall k | 0 <= k < |s| ensures r[k] == s[k] {
    }
  }

  /** The position-independent state of a layer, which reordering keeps. */
  function Look(l: Layer): (int, bool, seq<Mote>)
    reads l
  {
    (l.paintMode, l.checked, l.shapes)
  }

  /** A layer as its constructor leaves it. */
  predicate Pristine(l: Layer)
    reads l
  {
    l.paintMode == InitialPaintMode(l.kind) && !l.checked && l.shapes == []
  }

  /** Positions `start ..` of `layers` hold one layer of `kind` per label,
      named by the label and indexed from 0 within the group. */
  predicate Group(layers: seq<Layer>, start: nat, labels: seq<string>, kind: LayerKind) {
    && start + |labels| <= |layers|
    && forall j :: start <= j < start + |labels| ==>
         layers[j].kind == kind && layers[j].index == j - start && layers[j].name == labels[j - start]
  }

  lemma GroupPrefix(a: seq<Layer>, b: seq<Layer>, start: nat, labels: seq<string>, kind: LayerKind)
    requires Group(a, start, labels, kind) && |a| <= |b| && b[..|a|] == a
    ensures Group(b, start, labels, kind)
  {
    forall j | start <= j < start + |labels| ensures b[j] == a[j] {
      assert b[..|a|][j] == b[j];
    }
  }

  class Navigator {
    const selection: FieldSelection
    var layers: seq<Layer>
    var totalLayers: int
    /** The running zIndex handed to the next layer built (_tmp_i). */
    var nextZ: int

    /** Every layer reports its check box to this navigator's selection. */
    predicate Parented()
      reads this
    {
      forall l :: l in layers ==> l.parent == selection
    }

    /** Every layer's zIndex is its position in the list. */
    predicate Positioned()
      reads this, layers`zIndex
    {
      forall i :: 0 <= i < |layers| ==> layers[i].zIndex == i
    }

    /** Every layer knows its own position and the depth derived from it. */
    predicate Valid()
      reads this, layers`zIndex, layers`zDepth
    {
      && Parented() && Positioned()
      && totalLayers == |layers|
      && forall i :: 0 <= i < |layers| ==> layers[i].zDepth == (totalLayers - i) * 100
    }

    /** Two rows per field label (a MOTE and a FIELD layer) and one per link
        label, built group by group. */
    constructor(labelMotes: seq<string>, labelLinks: seq<string>, selection: FieldSelection)
      ensures Valid() && this.selection == selection
      ensures forall i :: 0 <= i < |layers| ==> fresh(layers[i]) && Pristine(layers[i])
      ensures totalLayers == 2 * |labelMotes| + |labelLinks|
      ensures Group(layers, 0, labelMotes, MoteLayer)
      ensures Group(layers, |labelMotes|, labelLinks, LinkLayer)
      ensures Group(layers, |labelMotes| + |labelLinks|, labelMotes, FieldLayer)
    {
      this.selection := selection;
      layers := [];
      totalLayers := 2 * |labelMotes| + |labelLinks|;
      nextZ := 0;
      new;
      BuildGroups(labelMotes, labelLinks);
      ghost var built := layers;
      PositionsDistinct(layers);
      UpdateLayerIndex();
      assert forall l :: l in built ==> Pristine(l);
    }

    /** The three groups in order: a MOTE layer per field label, a LINK
        layer per link label, a FIELD layer per field label. */
    method BuildGroups(labelMotes: seq<string>, labelLinks: seq<string>)
      requires layers == [] && nextZ == 0
      modifies this
      ensures Parented() && Positioned() && totalLayers == old(totalLayers)
      ensures |layers| == 2 * |labelMotes| + |labelLinks|
      ensures forall i :: 0 <= i < |layers| ==> fresh(layers[i]) && Pristine(layers[i])
      ensures Group(layers, 0, labelMotes, MoteLayer)
      ensures Group(layers, |labelMotes|, labelLinks, LinkLayer)
      ensures Group(layers, |labelMotes| + |labelLinks|, labelMotes, FieldLayer)
    {
      AddLayer(labelMotes, MoteLayer);
      ghost var first := layers;
      AddLayer(labelLinks, LinkLayer);
      GroupPrefix(first, layers, 0, labelMotes, MoteLayer);
      ghost var second := layers;
      AddLayer(labelMotes, FieldLayer);
      GroupPrefix(second, layers, 0, labelMotes, MoteLayer);
      GroupPrefix(second, layers, |labelMotes|, labelLinks, LinkLayer);
    }

    /** Appends one fresh layer per label: zIndex continues the running count,
        index counts from 0 within the group. */
    method AddLayer(labels: seq<string>, kind: LayerKind)
      requires Parented() && Positioned() && nextZ == |layers|
      modifies this
      ensures Parented() && Positioned() && nextZ == |layers| && totalLayers == old(totalLayers)
      ensures |layers| == old(|layers|) + |labels| && layers[..old(|layers|)] == old(layers)
      ensures Group(layers, old(|layers|), labels, kind)
      ensures forall j :: old(|layers|) <= j < |layers| ==> fresh(layers[j]) && Pristine(layers[j])
    {
      ghost var before := layers;
      for i := 0 to |labels|
        invariant Parented() && Positioned() && nextZ == |layers| && totalLayers == old(totalLayers)
        invariant |layers| == |before| + i && layers[..|before|] == before
        invariant Group(layers, |before|, labels[..i], kind)
        invariant forall j :: |before| <= j < |layers| ==> fresh(layers[j]) && Pristine(layers[j])
      {
        var d := new Layer(nextZ, i, labels[i], kind, selection);
        layers := layers + [d];
        nextZ := nextZ + 1;
      }
      assert labels[..|labels|] == labels;
    }

    /** Sets every layer's zIndex to its position (and its depth from it). */
    method UpdateLayerIndex()
      requires Parented() && NoDup(layers) && totalLayers == |layers|
      modifies layers`zIndex, layers`zDepth
      ensures Valid()
      ensures forall l :: l in layers ==> Look(l) == old(Look(l))
    {
      var i := 0;
      while i < |layers|
        invariant 0 <= i <= |layers|
        invariant forall k :: 0 <= k < i ==> layers[k].zIndex == k && layers[k].zDepth == (totalLayers - k) * 100
        invariant forall l :: l in layers ==> Look(l) == old(Look(l))
      {
        layers[i].UpdateIndex(i, totalLayers);
        i := i + 1;
      }
    }

    /** Exchanges the layer at `zIndex` with the one above it; the top layer
        stays where it is. */
    method MoveLayerUp(zIndex: int)
      requires Valid() && 0 <= zIndex < |layers|
      modifies this, layers
      ensures Valid() && totalLayers == old(totalLayers)
      ensures layers == if zIndex == 0 then old(layers) else SwapAdjacent(old(layers), zIndex - 1)
      ensures forall l :: l in old(layers) ==> Look(l) == old(Look(l))
    {
      if zIndex == 0 {
        return;
      }
      var d := layers[zIndex];
      PositionsDistinct(layers);
      RemoveInsertBefore(layers, zIndex - 1);
      SwapKeepsMembers(layers, zIndex - 1);
      layers := InsertAt(RemoveAt(layers, zIndex), zIndex - 1, d);
      UpdateLayerIndex();
    }

    /** Exchanges the layer at `zIndex` with the one below it; the bottom
        layer stays where it is. */
    method MoveLayerDown(zIndex: int)
      requires Valid() && 0 <= zIndex < |layers|
      modifies this, layers
      ensures Valid() && totalLayers == old(totalLayers)
      ensures layers == if zIndex == |layers| - 1 then old(layers) else SwapAdjacent(old(layers), zIndex)
      ensures forall l :: l in old(layers) ==> Look(l) == old(Look(l))
    {
      if zIndex == |layers| - 1 {
        return;
      }
      var d := layers[zIndex];
      PositionsDistinct(layers);
      RemoveInsertAfter(layers, zIndex);
      SwapKeepsMembers(layers, zIndex);
      layers := InsertAt(RemoveAt(layers, zIndex), zIndex + 1, d);
      UpdateLayerIndex();
    }

    /** The first layer with a ticked FIELD box is the background of a
        redraw; without one, the last layer is. Layers from there up to
        position 0 are repainted. */
    method BackgroundLayer() returns (start: int)
      requires Valid()
      ensures (exists k :: 0 <= k < |layers| && layers[k].IsFieldSelected()) ==>
                0 <= start < |layers| && layers[start].IsFieldSelected()
                && forall k :: 0 <= k < start ==> !layers[k].IsFieldSelected()
      ensures (forall k :: 0 <= k < |layers| ==> !layers[k].IsFieldSelected()) ==> start == totalLayers - 1
      ensures totalLayers >= 1 ==> 0 <= start < totalLayers
    {
      start := totalLayers - 1;
      var i := 0;
      while i < totalLayers
        invariant 0 <= i <= totalLayers
        invariant forall k :: 0 <= k < i ==> !layers[k].IsFieldSelected()
      {
        var a := layers[i];
        if a.IsFieldSelected() {
          start := a.zIndex;
          return;
        }
        i := i + 1;
      }
    }

    /** Hands a new mote to every layer, each exactly once. */
    method AddMote(m: Mote)
      requires Valid()
      modifies layers`shapes
      ensures forall i :: 0 <= i < |layers| ==> layers[i].shapes == old(layers[i].shapes) + [m]
    {
      var i := 0;
      while i < |layers|
        invariant 0 <= i <= |layers|
        invariant forall k :: 0 <= k < i ==> layers[k].shapes == old(layers[k].shapes) + [m]
        invariant forall k :: i <= k < |layers| ==> layers[k].shapes == old(layers[k].shapes)
      {
        layers[i].AddMote(m);
        i := i + 1;
      }
    }

    /** Gives every non-LINK layer one shape per model. */
    method Init(models: seq<Mote>)
      requires Valid()
      modifies layers`shapes
      ensures forall i :: 0 <= i < |layers| ==>
                layers[i].shapes == if layers[i].kind == LinkLayer then old(layers[i].shapes) else old(layers[i].shapes) + models
    {
      var i := 0;
      while i < |layers|
        invariant 0 <= i <= |layers|
        invariant forall k :: 0 <= k < i ==>
                    layers[k].shapes == if layers[k].kind == LinkLayer then old(layers[k].shapes) else old(layers[k].shapes) + models
        invariant forall k :: i <= k < |layers| ==> layers[k].shapes == old(layers[k].shapes)
      {
        layers[i].Init(models);
        i := i + 1;
      }
    }
  }

  /** Layers that carry their own positions are distinct. */
  lemma PositionsDistinct(ls: seq<Layer>)
    requires forall i :: 0 <= i < |ls| ==> ls[i].zIndex == i
    ensures NoDup(ls)
  {
  }

  /** Exchanging neighbours keeps the members and keeps them distinct. */
  lemma SwapKeepsMembers<T>(s: seq<T>, i: int)
    requires 0 <= i < |s| - 1
    ensures forall x :: x in SwapAdjacent(s, i) <==> x in s
    ensures NoDup(s) ==> NoDup(SwapAdjacent(s, i))
  {
    var r := SwapAdjacent(s, i);
    SwapAdjacentPermutes(s, i);
    forall x ensures x in r <==> x in s {
      assert x in r <==> x in multiset(r);
      assert x in s <==> x in multiset(s);
    }
    if NoDup(s) {
      forall a, b | 0 <= a < b < |r| ensures r[a] != r[b] {
        var pa := if a == i then i + 1 else if a == i + 1 then i else a;
        var pb := if b == i then i + 1 else if b == i + 1 then i else b;
        assert r[a] == s[pa] && r[b] == s[pb] && pa != pb;
      }
    }
  }
}
