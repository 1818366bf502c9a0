/** The document's get-or-create registry (DDocument): motes indexed by id,
    directed links indexed by the text key "start end", both filled on demand
    by value and link events processed one at a time. */
module Registry {
  import opened Basics
  import opened Decimal
  import opened Motes
  import opened Layers
  import opened Navigation

  /** The table model, registered as a listener of every mote it shows. */
  const TABLE_LISTENER: ListenerId := 0

  /** The two user-defined events: a reading for a mote's field, and a
      reading for the directed link from `start` to `end`. */
  datatype Event =
    | ValueSet(mote: int, name: string, value: int)
    | LinkSet(name: string, value: int, start: int, end: int)

  /** The link index key `start + " " + end`. */
  function LinkKey(start: int, end: int): string {
    IntToString(start) + " " + IntToString(end)
  }

  lemma SplitAtSpace(a1: string, b1: string, a2: string, b2: string)
    requires ' ' !in a1 && ' ' !in a2
    requires a1 + " " + b1 == a2 + " " + b2
    ensures a1 == a2 && b1 == b2
  {
    var s := a1 + " " + b1;
    IndexOfAfter(a1, ' ', b1);
    IndexOfAfter(a2, ' ', b2);
    assert a1 == s[..|a1|] == a2;
    assert b1 == s[|a1| + 1..] == b2;
  }

  lemma NoSpaceInInt(n: int)
    ensures ' ' !in IntToString(n)
  {
    IntToStringChars(n);
  }

  /** Link keys identify ordered pairs: equal keys mean equal pairs, so a
      link and its reverse are told apart. */
  lemma LinkKeyInjective(a: int, b: int, c: int, d: int)
    ensures LinkKey(a, b) == LinkKey(c, d) <==> a == c && b == d
    ensures a != b ==> LinkKey(a, b) != LinkKey(b, a)
  {
    NoSpaceInInt(a);
    NoSpaceInInt(c);
    NoSpaceInInt(b);
    if LinkKey(a, b) == LinkKey(c, d) {
      SplitAtSpace(IntToString(a), IntToString(b), IntToString(c), IntToString(d));
      IntToStringInjective(a, c);
      IntToStringInjective(b, d);
    }
    if a != b && LinkKey(a, b) == LinkKey(b, a) {
      SplitAtSpace(IntToString(a), IntToString(b), IntToString(b), IntToString(a));
      IntToStringInjective(a, b);
    }
  }


  /** The link record (DLinkModel), reduced to what the registry gives it:
      the ids of its start and end motes and the (name, value) readings it
      was handed, oldest first. */
  datatype Link = Link(start: int, end: int, updates: seq<(string, int)>) {
    function Key(): string {
      LinkKey(start, end)
    }
  }

  /** Every listed mote is indexed under its id by its position in the
      list, and every index entry points at a listed mote carrying that id. */
  predicate MotesIndexed(motes: seq<Mote>, idx: map<int, nat>) {
    && (forall i :: 0 <= i < |motes| ==> motes[i].id in idx && idx[motes[i].id] == i)
    && (forall id :: id in idx ==> idx[id] < |motes| && motes[idx[id]].id == id)
  }

  /** Every listed link is indexed under the key of its pair by its position
      in the list, and every index entry points at a listed link with that
      key. */
  predicate LinksIndexed(links: seq<Link>, idx: map<string, nat>) {
    && (forall i :: 0 <= i < |links| ==> links[i].Key() in idx && idx[links[i].Key()] == i)
    && (forall k :: k in idx ==> idx[k] < |links| && links[idx[k]].Key() == k)
  }

  /** No two listed motes share a reading or a colour array, so setting one
      mote's field leaves every other mote as it was. */
  predicate ArraysApart(motes: seq<Mote>) {
    forall i, j :: 0 <= i < j < |motes| ==> motes[i].values != motes[j].values && motes[i].colors != motes[j].colors
  }

  /** A mote whose arrays no listed mote holds can be appended. */
  lemma ArraysApartAppend(motes: seq<Mote>, m: Mote)
    requires ArraysApart(motes)
    requires forall i :: 0 <= i < |motes| ==> motes[i].values != m.values && motes[i].colors != m.colors
    ensures ArraysApart(motes + [m])
  {
  }

  /** Every link joins two registered motes. */
  predicate EndsRegistered(links: seq<Link>, idx: map<int, nat>) {
    forall i :: 0 <= i < |links| ==> links[i].start in idx && links[i].end in idx
  }

  /** Appending a mote with a new id and indexing it keeps the index exact. */
  lemma MotesIndexedAppend(motes: seq<Mote>, idx: map<int, nat>, m: Mote)
    requires MotesIndexed(motes, idx) && m.id !in idx
    ensures MotesIndexed(motes + [m], idx[m.id := |motes|])
  {
    var ms := motes + [m];
    forall i | 0 <= i < |motes| ensures motes[i].id != m.id {
      assert motes[i].id in idx;
    }
    forall id | id in idx ensures ms[idx[id]].id == id {
      assert ms[idx[id]] == motes[idx[id]];
    }
  }

  /** The link list after a link event for the ordered pair (`start`,
      `end`): the link under that pair is handed the reading, and is created
      first, at the end of the list, when the pair has none. */
  function LinkSetLinks(links: seq<Link>, idx: map<string, nat>, start: int, end: int, name: string, value: int): seq<Link>
    requires LinksIndexed(links, idx)
  {
    var key := LinkKey(start, end);
    if key in idx then
      links[idx[key] := links[idx[key]].(updates := links[idx[key]].updates + [(name, value)])]
    else
      links + [Link(start, end, [(name, value)])]
  }

  /** The link index after a link event: the pair's key is added, pointing
      at the end of the list, when it was missing. */
  function LinkSetIndex(links: seq<Link>, idx: map<string, nat>, start: int, end: int): map<string, nat> {
    var key := LinkKey(start, end);
    if key in idx then idx else idx[key := |links|]
  }

  /** A link event keeps the link index exact, leaves the pair's key
      indexed, and hands the reading to the link of that ordered pair:
      appended to what it had received, or as the first reading of a new
      link. */
  lemma {:induction false} LinkSetIndexed(links: seq<Link>, idx: map<string, nat>, start: int, end: int, name: string, value: int)
    requires LinksIndexed(links, idx)
    ensures var ls := LinkSetLinks(links, idx, start, end, name, value);
            var ix := LinkSetIndex(links, idx, start, end);
            var key := LinkKey(start, end);
            && LinksIndexed(ls, ix)
            && key in ix && ix[key] < |ls|
            && ls[ix[key]].start == start && ls[ix[key]].end == end
            && ls[ix[key]].updates == (if key in idx then links[idx[key]].updates else []) + [(name, value)]
  {
    var key := LinkKey(start, end);
    var ls := LinkSetLinks(links, idx, start, end, name, value);
    if key in idx {
      var p := idx[key];
      LinkKeyInjective(links[p].start, links[p].end, start, end);
      forall i | 0 <= i < |ls| ensures ls[i].Key() == links[i].Key() {
      }
    } else {
      forall i | 0 <= i < |links| ensures links[i].Key() != key {
        assert links[i].Key() in idx;
      }
      forall k | k in idx ensures ls[idx[k]] == links[idx[k]] {
      }
    }
  }

  /** A link event changes only the link of its ordered pair: every other
      listed link, the reverse link (`end`, `start`) among them, is left as
      it was, and at most one link is added. */
  lemma {:induction false} LinkSetForwardOnly(links: seq<Link>, idx: map<string, nat>, start: int, end: int, name: string, value: int)
    requires LinksIndexed(links, idx)
    ensures var ls := LinkSetLinks(links, idx, start, end, name, value);
            && |ls| == |links| + (if LinkKey(start, end) in idx then 0 else 1)
            && forall i :: 0 <= i < |links| && links[i].Key() != LinkKey(start, end) ==> ls[i] == links[i]
    ensures start != end && LinkKey(end, start) in idx ==>
              LinkSetLinks(links, idx, start, end, name, value)[idx[LinkKey(end, start)]] == links[idx[LinkKey(end, start)]]
  {
    var key := LinkKey(start, end);
    if key in idx {
      forall i | 0 <= i < |links| && links[i].Key() != key ensures i != idx[key] {
      }
    }
    if start != end && LinkKey(end, start) in idx {
      LinkKeyInjective(start, end, end, start);
    }
  }

  /** A link event between registered motes keeps every link's ends
      registered. */
  lemma LinkSetEnds(links: seq<Link>, idx: map<string, nat>, motes: map<int, nat>, start: int, end: int, name: string, value: int)
    requires LinksIndexed(links, idx) && EndsRegistered(links, motes)
    requires start in motes && end in motes
    ensures EndsRegistered(LinkSetLinks(links, idx, start, end, name, value), motes)
  {
  }

  class Document {
    /** The sensed field names (sensed_motes). */
    const fields: seq<string>
    const width: int
    const height: int
    /** Holds selectedFieldIndex, which the layers' check boxes write. */
    const selection: FieldSelection
    const nav: Navigator
    var motes: seq<Mote>
    /** The mote index: each registered id, with the mote's position in `motes`. */
    var moteIndex: map<int, nat>
    var links: seq<Link>
    /** The link index: each key "start end", with the link's position in `links`. */
    var linkIndex: map<string, nat>
    /** The mote being dragged on the canvas, if any. */
    var selected: Mote?

    ghost predicate NavValid()
      reads nav, nav.layers`zIndex, nav.layers`zDepth
    {
      nav.Valid() && nav.selection == selection
    }

    ghost predicate Valid()
      reads this
    {
      && MotesIndexed(motes, moteIndex)
      && LinksIndexed(links, linkIndex)
      && EndsRegistered(links, moteIndex)
      && (forall i :: 0 <= i < |motes| ==> motes[i].fields == fields && motes[i].Shaped())
      && ArraysApart(motes)
      && (selected == null || selected in motes)
    }

    predicate HasMote(id: int)
      reads this
    {
      id in moteIndex && moteIndex[id] < |motes|
    }

    /** The mote registered under `id`. */
    function MoteOf(id: int): (m: Mote)
      requires HasMote(id)
      reads this
      ensures m in motes
      ensures MotesIndexed(motes, moteIndex) ==> m.id == id
    {
      motes[moteIndex[id]]
    }

    /** The registry part of the document's construction: no motes or
        links yet, and a navigator over the field and link labels. */
    constructor(fields: seq<string>, linkLabels: seq<string>, width: int, height: int)
      ensures Valid() && NavValid()
      ensures this.fields == fields && this.width == width && this.height == height
      ensures motes == [] && moteIndex == map[] && links == [] && linkIndex == map[] && selected == null
      ensures selection.selectedFieldIndex == 0
      ensures |nav.layers| == 2 * |fields| + |linkLabels|
    {
      this.fields := fields;
      this.width := width;
      this.height := height;
      var sel := new FieldSelection();
      selection := sel;
      nav := new Navigator(fields, linkLabels, sel);
      motes := [];
      moteIndex := map[];
      links := [];
      linkIndex := map[];
      selected := null;
    }

    /** A mote placed by `draw`, with the table registered as its one
        listener (the table model's `add`). */
    method NewTableMote(id: int, draw: Draw) returns (m: Mote)
      requires DrawFits(draw, width, height, |fields|)
      ensures fresh(m) && fresh(m.values) && fresh(m.colors)
      ensures m.id == id && m.fields == fields && m.Shaped()
      ensures m.x == 20 + draw.dx && m.y == 20 + draw.dy
      ensures m.values[..] == draw.readings && m.ColorsMatch()
      ensures m.Registered() == [TABLE_LISTENER]
    {
      m := new Mote.Random(id, fields, width, height, draw);
      m.AddListener(TABLE_LISTENER);
    }

    /** Builds the mote for a new id at a random place, appends and indexes
        it, registers the table as its listener and hands it to every layer. */
    method CreateNewMote(id: int, draw: Draw) returns (m: Mote)
      requires Valid() && NavValid() && id !in moteIndex
      requires DrawFits(draw, width, height, |fields|)
      modifies this, nav.layers`shapes
      ensures fresh(m) && fresh(m.values) && fresh(m.colors)
      ensures motes == old(motes) + [m] && moteIndex == old(moteIndex)[id := |old(motes)|]
      ensures links == old(links) && linkIndex == old(linkIndex) && selected == old(selected)
      ensures m.id == id && m.x == 20 + draw.dx && m.y == 20 + draw.dy
      ensures m.values[..] == draw.readings && m.ColorsMatch()
      ensures m.Registered() == [TABLE_LISTENER]
      ensures forall i :: 0 <= i < |nav.layers| ==> nav.layers[i].shapes == old(nav.layers[i].shapes) + [m]
      ensures NavValid()
      ensures Valid()
    {
      m := NewTableMote(id, draw);
      nav.AddMote(m);
      ArraysApartAppend(motes, m);
      MotesIndexedAppend(motes, moteIndex, m);
      moteIndex := moteIndex[id := |motes|];
      motes := motes + [m];
    }

    /** The mote registered under `id`, created first when there is none
        (the lookup-or-create step of both event kinds). */
    method MoteFor(id: int, draw: Draw) returns (m: Mote)
      requires Valid() && NavValid()
      requires id !in moteIndex ==> DrawFits(draw, width, height, |fields|)
      modifies this, nav.layers`shapes
      ensures HasMote(id) && m == MoteOf(id)
      ensures id in old(moteIndex) ==> motes == old(motes) && moteIndex == old(moteIndex)
      ensures id !in old(moteIndex) ==>
                && fresh(m) && fresh(m.values) && fresh(m.colors)
                && motes == old(motes) + [m] && moteIndex == old(moteIndex)[id := |old(motes)|]
                && m.values[..] == draw.readings
      ensures links == old(links) && linkIndex == old(linkIndex) && selected == old(selected)
      ensures forall i :: 0 <= i < |nav.layers| ==>
                nav.layers[i].shapes == old(nav.layers[i].shapes) + (if id in old(moteIndex) then [] else [m])
      ensures NavValid()
      ensures Valid()
    {
      if id in moteIndex {
        m := motes[moteIndex[id]];
      } else {
        m := CreateNewMote(id, draw);
      }
    }

    /** A value event: the mote is found or created, then the named field
        of it is set (an unknown field name sets nothing). Only that mote's
        reading and colour arrays may change. */
    method ProcessValueSet(moteId: int, name: string, value: int, draw: Draw) returns (notified: seq<ListenerId>)
      requires Valid() && NavValid()
      requires moteId !in moteIndex ==> DrawFits(draw, width, height, |fields|)
      modifies this, nav.layers`shapes
      modifies if HasMote(moteId) then {MoteOf(moteId).values, MoteOf(moteId).colors} else {}
      ensures HasMote(moteId)
      ensures moteId in old(moteIndex) ==> motes == old(motes) && moteIndex == old(moteIndex)
      ensures moteId !in old(moteIndex) ==>
                && fresh(MoteOf(moteId)) && motes == old(motes) + [MoteOf(moteId)]
                && moteIndex == old(moteIndex)[moteId := |old(motes)|]
      ensures var before := if moteId in old(moteIndex) then old(MoteOf(moteId).values[..]) else draw.readings;
              MoteOf(moteId).values[..] == if name in fields then before[IndexOf(fields, name) := value] else before
      ensures moteId in old(moteIndex) ==>
                MoteOf(moteId).colors[..] == if name in fields then old(MoteOf(moteId).colors[..])[IndexOf(fields, name) := SetColor(value)]
                                             else old(MoteOf(moteId).colors[..])
      ensures moteId !in old(moteIndex) ==> MoteOf(moteId).ColorsMatch()
      ensures name in fields ==> MoteOf(moteId).colors[IndexOf(fields, name)] == SetColor(value)
      ensures forall j :: 0 <= j < |old(motes)| && old(motes)[j].id != moteId ==>
                old(motes)[j].values[..] == old(motes[j].values[..]) && old(motes)[j].colors[..] == old(motes[j].colors[..])
      ensures notified == if name in fields then MoteOf(moteId).Registered() else []
      ensures links == old(links) && linkIndex == old(linkIndex) && selected == old(selected)
      ensures forall i :: 0 <= i < |nav.layers| ==>
                nav.layers[i].shapes == old(nav.layers[i].shapes) + (if moteId in old(moteIndex) then [] else [MoteOf(moteId)])
      ensures NavValid()
      ensures Valid()
    {
      var m;
      if moteId in moteIndex {
        m := motes[moteIndex[moteId]];
      } else {
        m := CreateNewMote(moteId, draw);
        assert m == motes[|motes| - 1];
      }
      assert forall j :: 0 <= j < |old(motes)| && old(motes)[j].id != moteId ==>
               old(motes)[j].values != m.values && old(motes)[j].colors != m.colors;
      var ok;
      ok, notified := m.SetMoteValue(name, value);
    }

    /** Appends and indexes a new link between two registered motes. */
    method CreateNewLink(start: int, end: int)
      requires LinksIndexed(links, linkIndex) && LinkKey(start, end) !in linkIndex
      modifies this`links, this`linkIndex
      ensures links == old(links) + [Link(start, end, [])]
      ensures linkIndex == old(linkIndex)[LinkKey(start, end) := |old(links)|]
      ensures LinksIndexed(links, linkIndex)
    {
      var l := Link(start, end, []);
      forall i | 0 <= i < |links| ensures links[i].Key() != l.Key() {
        assert links[i].Key() in linkIndex;
      }
      linkIndex := linkIndex[l.Key() := |links|];
      links := links + [l];
    }

    /** The two endpoint motes of a link event, found or created in that
        order (start first). */
    method Endpoints(start: int, end: int, drawStart: Draw, drawEnd: Draw) returns (m: Mote, m2: Mote)
      requires Valid() && NavValid()
      requires start !in moteIndex ==> DrawFits(drawStart, width, height, |fields|)
      requires end !in moteIndex && end != start ==> DrawFits(drawEnd, width, height, |fields|)
      modifies this, nav.layers`shapes
      ensures HasMote(start) && m == MoteOf(start) && HasMote(end) && m2 == MoteOf(end)
      ensures moteIndex.Keys == old(moteIndex).Keys + {start, end}
      ensures forall id :: id in old(moteIndex) ==> moteIndex[id] == old(moteIndex)[id]
      ensures motes == old(motes) + (if start in old(moteIndex) then [] else [m])
                               + (if end in old(moteIndex) || end == start then [] else [m2])
      ensures start !in old(moteIndex) ==> fresh(m)
      ensures end !in old(moteIndex) ==> fresh(m2)
      ensures links == old(links) && linkIndex == old(linkIndex) && selected == old(selected)
      ensures forall j :: 0 <= j < |old(motes)| ==>
                old(motes)[j].values[..] == old(motes[j].values[..]) && old(motes)[j].colors[..] == old(motes[j].colors[..])
      ensures forall i :: 0 <= i < |nav.layers| ==>
                nav.layers[i].shapes == old(nav.layers[i].shapes) + (if start in old(moteIndex) then [] else [m])
                                        + (if end in old(moteIndex) || end == start then [] else [m2])
      ensures NavValid()
      ensures Valid()
    {
      m := MoteFor(start, drawStart);
      m2 := MoteFor(end, drawEnd);
    }

    /** The link part of a link event: the link under the ordered pair is
        created when missing, then handed the reading. */
    method DeliverLinkValue(start: int, end: int, name: string, value: int)
      requires LinksIndexed(links, linkIndex) && EndsRegistered(links, moteIndex)
      requires start in moteIndex && end in moteIndex
      modifies this`links, this`linkIndex
      ensures links == LinkSetLinks(old(links), old(linkIndex), start, end, name, value)
      ensures linkIndex == LinkSetIndex(old(links), old(linkIndex), start, end)
      ensures LinksIndexed(links, linkIndex) && EndsRegistered(links, moteIndex)
    {
      var key := LinkKey(start, end);
      if key !in linkIndex {
        CreateNewLink(start, end);
        ghost var added := Link(start, end, [(name, value)]);
        assert links[|old(links)|].updates + [(name, value)] == added.updates;
        assert links[|old(links)| := added] == old(links) + [added];
      }
      var i := linkIndex[key];
      links := links[i := links[i].(updates := links[i].updates + [(name, value)])];
      LinkSetIndexed(old(links), old(linkIndex), start, end, name, value);
      LinkSetEnds(old(links), old(linkIndex), moteIndex, start, end, name, value);
    }

    /** A link event: both endpoint motes are found or created (start
        first), the link under the ordered pair is found or created, and the
        reading is handed to that link alone. */
    method ProcessLinkSet(name: string, value: int, start: int, end: int, drawStart: Draw, drawEnd: Draw)
        returns (m: Mote, m2: Mote)
      requires Valid() && NavValid()
      requires start !in moteIndex ==> DrawFits(drawStart, width, height, |fields|)
      requires end !in moteIndex && end != start ==> DrawFits(drawEnd, width, height, |fields|)
      modifies this, nav.layers`shapes
      ensures HasMote(start) && m == MoteOf(start) && HasMote(end) && m2 == MoteOf(end)
      ensures moteIndex.Keys == old(moteIndex).Keys + {start, end}
      ensures motes == old(motes) + (if start in old(moteIndex) then [] else [m])
                               + (if end in old(moteIndex) || end == start then [] else [m2])
      ensures start !in old(moteIndex) ==> fresh(m)
      ensures end !in old(moteIndex) ==> fresh(m2)
      ensures links == LinkSetLinks(old(links), old(linkIndex), start, end, name, value)
      ensures linkIndex == LinkSetIndex(old(links), old(linkIndex), start, end)
      ensures selected == old(selected)
      ensures forall j :: 0 <= j < |old(motes)| ==>
                old(motes)[j].values[..] == old(motes[j].values[..]) && old(motes)[j].colors[..] == old(motes[j].colors[..])
      ensures forall i :: 0 <= i < |nav.layers| ==>
                nav.layers[i].shapes == old(nav.layers[i].shapes) + (if start in old(moteIndex) then [] else [m])
                                        + (if end in old(moteIndex) || end == start then [] else [m2])
      ensures NavValid()
      ensures Valid()
    {
      m, m2 := Endpoints(start, end, drawStart, drawEnd);
      DeliverLinkValue(start, end, name, value);
    }

    /** Dispatches one event; the draws place the motes it may create. */
    method ProcessEvent(ev: Event, draw1: Draw, draw2: Draw)
      requires Valid() && NavValid()
      requires ev.ValueSet? && ev.mote !in moteIndex ==> DrawFits(draw1, width, height, |fields|)
      requires ev.LinkSet? && ev.start !in moteIndex ==> DrawFits(draw1, width, height, |fields|)
      requires ev.LinkSet? && ev.end !in moteIndex && ev.end != ev.start ==> DrawFits(draw2, width, height, |fields|)
      modifies this, nav.layers`shapes
      modifies if ev.ValueSet? && HasMote(ev.mote) then {MoteOf(ev.mote).values, MoteOf(ev.mote).colors} else {}
      ensures ev.ValueSet? ==> moteIndex.Keys == old(moteIndex).Keys + {ev.mote} && HasMote(ev.mote)
      ensures ev.ValueSet? ==> motes == old(motes) + (if ev.mote in old(moteIndex) then [] else [MoteOf(ev.mote)])
      ensures ev.ValueSet? ==>
                var before := if ev.mote in old(moteIndex) then old(MoteOf(ev.mote).values[..]) else draw1.readings;
                MoteOf(ev.mote).values[..] == if ev.name in fields then before[IndexOf(fields, ev.name) := ev.value] else before
      ensures ev.ValueSet? ==> MoteOf(ev.mote).fields == fields && MoteOf(ev.mote).Shaped()
      ensures ev.ValueSet? && ev.name in fields ==> MoteOf(ev.mote).colors[IndexOf(fields, ev.name)] == SetColor(ev.value)
      ensures ev.ValueSet? ==> links == old(links) && linkIndex == old(linkIndex)
      ensures ev.LinkSet? ==> moteIndex.Keys == old(moteIndex).Keys + {ev.start, ev.end} && HasMote(ev.start) && HasMote(ev.end)
      ensures ev.LinkSet? ==> motes == old(motes) + (if ev.start in old(moteIndex) then [] else [MoteOf(ev.start)])
                                     + (if ev.end in old(moteIndex) || ev.end == ev.start then [] else [MoteOf(ev.end)])
      ensures ev.LinkSet? ==> links == LinkSetLinks(old(links), old(linkIndex), ev.start, ev.end, ev.name, ev.value)
      ensures ev.LinkSet? ==> linkIndex == LinkSetIndex(old(links), old(linkIndex), ev.start, ev.end)
      ensures ev.ValueSet? ==> forall j :: 0 <= j < |old(motes)| && old(motes)[j].id != ev.mote ==>
                old(motes)[j].values[..] == old(motes[j].values[..]) && old(motes)[j].colors[..] == old(motes[j].colors[..])
      ensures ev.LinkSet? ==> forall j :: 0 <= j < |old(motes)| ==>
                old(motes)[j].values[..] == old(motes[j].values[..]) && old(motes)[j].colors[..] == old(motes[j].colors[..])
      ensures ev.ValueSet? ==> forall i :: 0 <= i < |nav.layers| ==>
                nav.layers[i].shapes == old(nav.layers[i].shapes) + (if ev.mote in old(moteIndex) then [] else [MoteOf(ev.mote)])
      ensures ev.LinkSet? ==> forall i :: 0 <= i < |nav.layers| ==>
                nav.layers[i].shapes == old(nav.layers[i].shapes) + (if ev.start in old(moteIndex) then [] else [MoteOf(ev.start)])
                                        + (if ev.end in old(moteIndex) || ev.end == ev.start then [] else [MoteOf(ev.end)])
      ensures selected == old(selected)
      ensures NavValid()
      ensures Valid()
    {
      match ev
      case ValueSet(mote, name, value) =>
        var _ := ProcessValueSet(mote, name, value, draw1);
      case LinkSet(name, value, start, end) =>
        var _, _ := ProcessLinkSet(name, value, start, end, draw1, draw2);
    }
  }

  /** Under the invariant the index and the list describe the same motes:
      an id is registered exactly when a listed mote carries it, and no two
      listed motes carry the same id. */
  lemma IndexMatchesList(d: Document, id: int)
    requires d.Valid()
    ensures id in d.moteIndex <==> exists i :: 0 <= i < |d.motes| && d.motes[i].id == id
    ensures forall i, j :: 0 <= i < |d.motes| && 0 <= j < |d.motes| && d.motes[i].id == d.motes[j].id ==> i == j
  {
  }

  /** Under the invariant, `equals` on listed motes is identity: two rows
      hold equal motes exactly when they are the same row, that is exactly
      when they hold the same object. */
  lemma EqualsMeansSameRow(d: Document, i: int, j: int)
    requires d.Valid() && 0 <= i < |d.motes| && 0 <= j < |d.motes|
    ensures d.motes[i].Equals(d.motes[j]) <==> i == j
    ensures d.motes[i].Equals(d.motes[j]) <==> d.motes[i] == d.motes[j]
  {
    var a, b := d.motes[i], d.motes[j];
    assert a.id in d.moteIndex && d.moteIndex[a.id] == i;
    assert b.id in d.moteIndex && d.moteIndex[b.id] == j;
  }
}
