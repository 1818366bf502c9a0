/** The packet dispatcher (MessageInput): a received packet is read through
    its getters, field getters fill a field table and link getters a link
    table, and the tables become value and link events for the document;
    the three acceleration readings are kept for an upload whose body, a
    small JSON-style object, reads back through `ParseUploadBody`. */
module Messages {
  import opened Basics
  import opened Decimal
  import opened Registry

  /** One public method of the packet's class, as reflection lists it,
      with the value it returns when invoked. */
  datatype Getter = Getter(name: string, hasParams: bool, returnsArray: bool, value: int)

  /** Where a getter's value goes, under the name left once its prefix is
      chopped off. */
  datatype Route = ToFields(field: string) | ToLinks(key: string) | Nowhere

  /** Getters with parameters or an array result are skipped; "get_" but
      not "get_link" names go to the field table without their first 4
      characters; "get_link_" names go to the link table without their
      first 9; every other name, other "get_link..." names included, goes
      nowhere. */
  function Classify(g: Getter): (r: Route)
    ensures r.ToFields? ==> "get_" + r.field == g.name && !HasPrefix(g.name, "get_link")
    ensures r.ToLinks? ==> "get_link_" + r.key == g.name
    ensures g.hasParams || g.returnsArray ==> r == Nowhere
  {
    if g.hasParams || g.returnsArray then Nowhere
    else if HasPrefix(g.name, "get_") && !HasPrefix(g.name, "get_link") then ToFields(g.name[4..])
    else if HasPrefix(g.name, "get_link_") then ToLinks(g.name[9..])
    else Nowhere
  }

  /** Chopping the prefix loses nothing: a name is routed back to the table
      and key it was built from, unless it is skipped. */
  lemma ClassifyRoundTrip(rest: string, hasParams: bool, returnsArray: bool, value: int)
    ensures var skipped := hasParams || returnsArray;
      && Classify(Getter("get_link_" + rest, hasParams, returnsArray, value)) == (if skipped then Nowhere else ToLinks(rest))
      && (!HasPrefix(rest, "link") ==>
            Classify(Getter("get_" + rest, hasParams, returnsArray, value)) == (if skipped then Nowhere else ToFields(rest)))
  {
    PrefixOfConcat("get_link_", rest);
    assert "get_link_" + rest == "get_" + ("link_" + rest);
    PrefixOfConcat("get_", "link_" + rest);
    assert ("get_link_" + rest)[..8] == "get_link";
    PrefixOfConcat("get_", rest);
    if !HasPrefix(rest, "link") {
      assert ("get_" + rest)[4..] == rest;
      if |rest| >= 4 {
        assert ("get_" + rest)[..8] == "get_" + rest[..4];
      }
    }
  }

  /** The key a getter's value is stored under in the field table
      (`link == false`) or the link table (`link == true`), if any. */
  function KeyIn(g: Getter, link: bool): Option<string> {
    match Classify(g)
    case ToFields(f) => if link then None else Some(f)
    case ToLinks(k) => if link then Some(k) else None
    case Nowhere => None
  }

  /** The field table (`link == false`) or link table (`link == true`)
      after the first `n` getters are visited in order; a later getter
      under the same key overwrites an earlier one, as `Hashtable.put`
      does. */
  function TableOf(gs: seq<Getter>, n: nat, link: bool): map<string, int>
    requires n <= |gs|
    decreases n
  {
    if n == 0 then map[] else Visit(TableOf(gs, n - 1, link), gs[n - 1], link)
  }

  /** One `put` of the getter's value under its key, if it has one. */
  function Visit(t: map<string, int>, g: Getter, link: bool): map<string, int> {
    var key := KeyIn(g, link);
    if key.Some? then t[key.value := g.value] else t
  }

  /** A key is in a table exactly when some visited getter is routed to
      it, and it holds the value of the last such getter. */
  lemma {:induction false} TableOfEntry(gs: seq<Getter>, n: nat, link: bool, k: string)
    requires n <= |gs|
    ensures k in TableOf(gs, n, link) <==> exists i :: 0 <= i < n && KeyIn(gs[i], link) == Some(k)
    ensures k in TableOf(gs, n, link) ==>
      exists i :: 0 <= i < n && KeyIn(gs[i], link) == Some(k) && TableOf(gs, n, link)[k] == gs[i].value &&
        forall j :: i < j < n ==> KeyIn(gs[j], link) != Some(k)
    decreases n
  {
    if n > 0 {
      TableOfEntry(gs, n - 1, link, k);
      if KeyIn(gs[n - 1], link) == Some(k) {
        assert TableOf(gs, n, link)[k] == gs[n - 1].value;
      } else if k in TableOf(gs, n - 1, link) {
        var i :| 0 <= i < n - 1 && KeyIn(gs[i], link) == Some(k) && TableOf(gs, n - 1, link)[k] == gs[i].value &&
          forall j :: i < j < n - 1 ==> KeyIn(gs[j], link) != Some(k);
        assert TableOf(gs, n, link)[k] == gs[i].value;
      } else {
        assert k !in TableOf(gs, n, link);
      }
    }
  }

  /** The field names whose readings are kept for the upload. */
  predicate IsAcceleration(field: string) {
    field == "x_acceleration" || field == "y_acceleration" || field == "z_acceleration"
  }

  /** The acceleration readings among the first `n` getters, in the order
      visited. */
  function AccelReadings(gs: seq<Getter>, n: nat): seq<int>
    requires n <= |gs|
    decreases n
  {
    if n == 0 then [] else AccelReadings(gs, n - 1) + AccelOf(gs[n - 1])
  }

  /** The getter's reading when it is an acceleration field getter. */
  function AccelOf(g: Getter): seq<int> {
    var r := Classify(g);
    if r.ToFields? && IsAcceleration(r.field) then [g.value] else []
  }

  /** Writing the slot after the kept readings extends them by one and
      leaves the slots after it as they were. */
  lemma KeptSlot(buffer: seq<int>, kept: seq<int>, initial: seq<int>, v: int)
    requires |kept| < |buffer| == |initial|
    requires buffer[..|kept|] == kept && buffer[|kept|..] == initial[|kept|..]
    ensures buffer[|kept| := v][..|kept| + 1] == kept + [v]
    ensures buffer[|kept| := v][|kept| + 1..] == initial[|kept| + 1..]
  {
    var b := buffer[|kept| := v];
    assert b[..|kept| + 1] == buffer[..|kept|] + [v];
    assert b[|kept| + 1..] == buffer[|kept|..][1..];
  }

  /** The first getters keep no more readings than all of them. */
  lemma {:induction false} AccelReadingsGrow(gs: seq<Getter>, n: nat)
    requires n <= |gs|
    ensures |AccelReadings(gs, n)| <= |AccelReadings(gs, |gs|)|
    decreases |gs| - n
  {
    if n < |gs| {
      AccelReadingsGrow(gs, n + 1);
    }
  }

  /** The result of one received packet: either no "origin" field was
      found, so nothing is dispatched, or the events posted to the
      document, field events first, and the upload body, present exactly
      when the origin is mote 1. */
  datatype Outcome =
    | MissingOrigin
    | Dispatched(origin: int, valueEvents: seq<Event>, linkEvents: seq<Event>, upload: Option<string>)

  /** The JSON member `"tag": n`. */
  function Member(tag: char, n: int): string {
    "\"" + [tag] + "\": " + IntToString(n)
  }

  /** The upload body `{"X": a,"Y": b,"Z": c}`. */
  function UploadBody(a: int, b: int, c: int): string {
    "{" + Member('X', a) + "," + Member('Y', b) + "," + Member('Z', c) + "}"
  }

  /** Reads `"tag": n` followed by `stop`, giving n and the text after
      `stop`. */
  function ReadMember(s: string, tag: char, stop: char): Option<(int, string)> {
    var key := "\"" + [tag] + "\": ";
    if !HasPrefix(s, key) then None
    else
      var rest := s[|key|..];
      var i := IndexOf(rest, stop);
      if i < 0 then None
      else
        match ParseInt(rest[..i])
        case Some(n) => Some((n, rest[i + 1..]))
        case None => None
  }

  /** Reads an upload body back into its three readings. */
  function ParseUploadBody(s: string): Option<(int, int, int)> {
    if |s| == 0 || s[0] != '{' then None
    else
      match ReadMember(s[1..], 'X', ',')
      case None => None
      case Some((a, r1)) =>
        match ReadMember(r1, 'Y', ',')
        case None => None
        case Some((b, r2)) =>
          match ReadMember(r2, 'Z', '}')
          case None => None
          case Some((c, r3)) => if r3 == "" then Some((a, b, c)) else None
  }

  /** Reading a key, a run of characters free of `stop`, and `stop`,
      splits the text at exactly those places. */
  lemma SplitMember(key: string, num: string, stop: char, rest: string)
    requires stop !in num
    ensures var s := (key + num) + [stop] + rest;
      && HasPrefix(s, key)
      && var tail := s[|key|..];
      && IndexOf(tail, stop) == |num|
      && tail[..|num|] == num
      && tail[|num| + 1..] == rest
  {
    var s := (key + num) + [stop] + rest;
    var tail := num + [stop] + rest;
    assert s == key + tail;
    PrefixOfConcat(key, tail);
    IndexOfAfter(num, stop, rest);
    assert tail[..|num|] == num;
    assert tail[|num| + 1..] == rest;
  }

  lemma ReadMemberOf(tag: char, n: int, stop: char, rest: string)
    requires stop == ',' || stop == '}'
    ensures ReadMember(Member(tag, n) + [stop] + rest, tag, stop) == Some((n, rest))
  {
    var key := "\"" + [tag] + "\": ";
    var num := IntToString(n);
    IntToStringChars(n);
    IntToStringRoundTrip(n);
    assert stop !in num;
    var s := Member(tag, n) + [stop] + rest;
    assert s == (key + num) + [stop] + rest;
    SplitMember(key, num, stop, rest);
    var tail := s[|key|..];
    assert ParseInt(tail[..|num|]) == Some(n);
  }

  lemma Regroup(x: string, y: string, z: string)
    ensures ("{" + x + "," + y + "," + z + "}")[1..] == x + [','] + (y + [','] + (z + ['}'] + ""))
  {
  }

  /** The upload body reads back as the three readings it was built from. */
  lemma UploadRoundTrip(a: int, b: int, c: int)
    ensures ParseUploadBody(UploadBody(a, b, c)) == Some((a, b, c))
  {
    var x, y, z := Member('X', a), Member('Y', b), Member('Z', c);
    Regroup(x, y, z);
    var r2 := z + ['}'] + "";
    var r1 := y + [','] + r2;
    ReadMemberOf('X', a, ',', r1);
    ReadMemberOf('Y', b, ',', r2);
    ReadMemberOf('Z', c, '}', "");
  }

  /** `updateOnParse`'s body construction: one `"tag": n,` member per
      reading, then the trailing comma dropped and the brace closed. */
  method BuildUploadBody(valuesToSend: array<int>) returns (body: string)
    requires valuesToSend.Length == 3
    ensures body == UploadBody(valuesToSend[0], valuesToSend[1], valuesToSend[2])
  {
    var parameters := ['X', 'Y', 'Z'];
    ghost var vs := valuesToSend[..];
    var message := "{";
    for i := 0 to 3
      invariant message == "{" + Members(parameters, vs, i)
    {
      MemberText(message, parameters[i], valuesToSend[i]);
      AppendMember(parameters, vs, i);
      message := message + "\"" + [parameters[i]] + "\"" + ": " + IntToString(valuesToSend[i]) + ",";
    }
    UploadFromMembers(valuesToSend[..]);
    message := message[..|message| - 1];
    body := message + "}";
  }

  lemma AppendMember(tags: seq<char>, vs: seq<int>, i: nat)
    requires i < |tags| && i < |vs|
    ensures "{" + Members(tags, vs, i + 1) == "{" + Members(tags, vs, i) + Member(tags[i], vs[i]) + ","
  {
  }

  lemma MemberText(prefix: string, tag: char, n: int)
    ensures prefix + "\"" + [tag] + "\"" + ": " + IntToString(n) + "," == prefix + Member(tag, n) + ","
  {
  }

  lemma UploadFromMembers(vs: seq<int>)
    requires |vs| == 3
    ensures var m := "{" + Members(['X', 'Y', 'Z'], vs, 3);
      m[..|m| - 1] + "}" == UploadBody(vs[0], vs[1], vs[2])
  {
    var tags := ['X', 'Y', 'Z'];
    var x, y, z := Member('X', vs[0]), Member('Y', vs[1]), Member('Z', vs[2]);
    assert Members(tags, vs, 1) == "" + x + ",";
    assert Members(tags, vs, 2) == Members(tags, vs, 1) + y + ",";
    assert Members(tags, vs, 3) == Members(tags, vs, 2) + z + ",";
    DropTrailingComma(x, y, z);
  }

  lemma DropTrailingComma(x: string, y: string, z: string)
    ensures var m := "{" + ((("" + x + ",") + y + ",") + z + ",");
      m[..|m| - 1] + "}" == "{" + x + "," + y + "," + z + "}"
  {
    var m := "{" + ((("" + x + ",") + y + ",") + z + ",");
    assert m == ("{" + x + "," + y + "," + z) + ",";
  }

  /** The first `n` members as the loop writes them, each followed by a
      comma. */
  function Members(tags: seq<char>, vals: seq<int>, n: nat): string
    requires n <= |tags| && n <= |vals|
  {
    if n == 0 then ""
    else Members(tags, vals, n - 1) + Member(tags[n - 1], vals[n - 1]) + ","
  }

  /** The posting loop over the field table: one value event for the
      origin mote per key, each key exactly once, in whatever order the
      table enumerates them. */
  method PostFieldValues(origin: int, table: map<string, int>) returns (events: seq<Event>)
    ensures |events| == |table.Keys|
    ensures NoDup(events)
    ensures forall e :: e in events ==> e.ValueSet? && e.mote == origin && e.name in table && e.value == table[e.name]
    ensures forall k :: k in table ==> ValueSet(origin, k, table[k]) in events
  {
    events := [];
    var remaining := table.Keys;
    while remaining != {}
      invariant remaining <= table.Keys
      invariant |events| + |remaining| == |table.Keys|
      invariant NoDup(events)
      invariant forall e :: e in events ==> e.ValueSet? && e.mote == origin && e.name in table.Keys - remaining && e.value == table[e.name]
      invariant forall k :: k in table.Keys - remaining ==> ValueSet(origin, k, table[k]) in events
      decreases |remaining|
    {
      var key :| key in remaining;
      var e := ValueSet(origin, key, table[key]);
      assert e !in events;
      events := events + [e];
      remaining := remaining - {key};
    }
  }

  /** The link key a "_value" key pairs with: its base with "_addr". */
  function AddrKey(key: string): string
    requires HasSuffix(key, "_value")
  {
    key[..|key| - 6] + "_addr"
  }

  /** A link-table key that yields a link event: it ends in "_value" and
      the key with the same base ending in "_addr" is present too. */
  predicate Paired(linkTable: map<string, int>, key: string) {
    HasSuffix(key, "_value") && AddrKey(key) in linkTable
  }

  /** The posting loop over the link table: for every paired "_value" key,
      exactly one link event from the origin to the mote named by the
      "_addr" entry, under the base name and with the "_value" reading;
      unpaired keys are skipped. */
  method PostLinkValues(origin: int, linkTable: map<string, int>) returns (events: seq<Event>)
    ensures NoDup(events)
    ensures forall e :: e in events ==>
      && e.LinkSet? && e.start == origin
      && e.name + "_value" in linkTable && Paired(linkTable, e.name + "_value")
      && e.value == linkTable[e.name + "_value"] && e.end == linkTable[e.name + "_addr"]
    ensures forall k :: k in linkTable && Paired(linkTable, k) ==>
      LinkSet(k[..|k| - 6], linkTable[k], origin, linkTable[AddrKey(k)]) in events
  {
    events := [];
    var remaining := linkTable.Keys;
    while remaining != {}
      invariant remaining <= linkTable.Keys
      invariant NoDup(events)
      invariant forall e :: e in events ==>
        && e.LinkSet? && e.start == origin
        && e.name + "_value" in linkTable.Keys - remaining && Paired(linkTable, e.name + "_value")
        && e.value == linkTable[e.name + "_value"] && e.end == linkTable[e.name + "_addr"]
      invariant forall k :: k in linkTable.Keys - remaining && Paired(linkTable, k) ==>
        LinkSet(k[..|k| - 6], linkTable[k], origin, linkTable[AddrKey(k)]) in events
      decreases |remaining|
    {
      var key :| key in remaining;
      remaining := remaining - {key};
      if !HasSuffix(key, "_value") {
        continue;
      }
      var value := linkTable[key];
      var base := key[..|key| - 6];
      var addrkey := base + "_addr";
      if addrkey !in linkTable {
        continue;
      }
      var addr := linkTable[addrkey];
      SuffixOfConcat(base, "_value");
      assert base + "_value" == key;
      var e := LinkSet(base, value, origin, addr);
      assert e !in events;
      events := events + [e];
    }
  }

  /** One pass of the getter loop: the getter's value is put under its
      key in the field or link table, and `kept` reports an acceleration
      reading, which the loop writes to the next free slot. */
  method VisitGetter(g: Getter, table: map<string, int>, linkTable: map<string, int>)
    returns (table': map<string, int>, linkTable': map<string, int>, kept: bool)
    ensures table' == Visit(table, g, false) && linkTable' == Visit(linkTable, g, true)
    ensures kept <==> AccelOf(g) != []
  {
    table', linkTable', kept := table, linkTable, false;
    if g.hasParams || g.returnsArray {
      return;
    }
    var name := g.name;
    if HasPrefix(name, "get_") && !HasPrefix(name, "get_link") {
      name := name[4..];
      if IsAcceleration(name) {
        table' := table[name := g.value];
        kept := true;
      } else {
        table' := table[name := g.value];
      }
    } else if HasPrefix(name, "get_link_") {
      name := name[9..];
      linkTable' := linkTable[name := g.value];
    }
  }

  /** The getter loop of `messageReceived`: fills the two tables in getter
      order and writes the acceleration readings into `valuesToSend`
      from slot 0 on, one slot per reading. */
  method CollectTables(getters: seq<Getter>, valuesToSend: array<int>) returns (table: map<string, int>, linkTable: map<string, int>)
    requires valuesToSend.Length == 3 && |AccelReadings(getters, |getters|)| <= 3
    modifies valuesToSend
    ensures table == TableOf(getters, |getters|, false) && linkTable == TableOf(getters, |getters|, true)
    ensures var kept := AccelReadings(getters, |getters|);
      valuesToSend[..|kept|] == kept && valuesToSend[|kept|..] == old(valuesToSend[..])[|kept|..]
  {
    table := map[];
    linkTable := map[];
    var index := 0;
    ghost var initial := valuesToSend[..];
    ghost var readings := [];
    ghost var buffer := initial;
    for i := 0 to |getters|
      invariant table == TableOf(getters, i, false) && linkTable == TableOf(getters, i, true)
      invariant readings == AccelReadings(getters, i)
      invariant index == |readings| <= 3 && |buffer| == 3
      invariant buffer[..index] == readings && buffer[index..] == initial[index..]
      invariant valuesToSend[..] == buffer
    {
      AccelReadingsGrow(getters, i + 1);
      var g := getters[i];
      var kept;
      table, linkTable, kept := VisitGetter(g, table, linkTable);
      if kept {
        KeptSlot(buffer, readings, initial, g.value);
        buffer := buffer[index := g.value];
        valuesToSend[index] := g.value;
        index := index + 1;
      }
      readings := readings + AccelOf(g);
    }
  }

  class MessageInput {
    /** The acceleration readings kept for the upload; null before the
        first packet. */
    var valuesToSend: array?<int>

    constructor()
      ensures valuesToSend == null
    {
      valuesToSend := null;
    }

    /** `messageReceived` for a packet read through `getters`. Without an
        "origin" field nothing is posted or uploaded; otherwise every
        field-table entry becomes a value event for the origin mote (the
        origin entry included), every paired link entry a link event from
        it, and the upload body is built when the origin is mote 1. */
    method MessageReceived(getters: seq<Getter>) returns (outcome: Outcome)
      requires |AccelReadings(getters, |getters|)| <= 3
      modifies this
      ensures valuesToSend != null && fresh(valuesToSend) && valuesToSend.Length == 3
      ensures valuesToSend[..] == AccelReadings(getters, |getters|) + seq(3 - |AccelReadings(getters, |getters|)|, _ => 0)
      ensures outcome.MissingOrigin? <==> "origin" !in TableOf(getters, |getters|, false)
      ensures outcome.Dispatched? ==>
        var table := TableOf(getters, |getters|, false);
        var linkTable := TableOf(getters, |getters|, true);
        && outcome.origin == table["origin"]
        && |outcome.valueEvents| == |table.Keys| && NoDup(outcome.valueEvents)
        && (forall k :: k in table ==> ValueSet(outcome.origin, k, table[k]) in outcome.valueEvents)
        && (forall e :: e in outcome.valueEvents ==> e.ValueSet? && e.mote == outcome.origin && e.name in table && e.value == table[e.name])
        && NoDup(outcome.linkEvents)
        && (forall k :: k in linkTable && Paired(linkTable, k) ==>
              LinkSet(k[..|k| - 6], linkTable[k], outcome.origin, linkTable[AddrKey(k)]) in outcome.linkEvents)
        && (forall e :: e in outcome.linkEvents ==>
              && e.LinkSet? && e.start == outcome.origin
              && e.name + "_value" in linkTable && Paired(linkTable, e.name + "_value")
              && e.value == linkTable[e.name + "_value"] && e.end == linkTable[e.name + "_addr"])
        && outcome.upload == (if outcome.origin == 1 then Some(UploadBody(valuesToSend[0], valuesToSend[1], valuesToSend[2])) else None)
    {
      valuesToSend := new int[3](_ => 0);
      var table, linkTable := CollectTables(getters, valuesToSend);
      if "origin" !in table {
        return MissingOrigin;
      }
      var origin := table["origin"];
      var valueEvents := PostFieldValues(origin, table);
      var linkEvents := PostLinkValues(origin, linkTable);
      var upload := None;
      if origin == 1 {
        var body := BuildUploadBody(valuesToSend);
        upload := Some(body);
      }
      outcome := Dispatched(origin, valueEvents, linkEvents, upload);
    }
  }
}
