# mviz viewer core, modelled in Dafny

mviz is the Swing viewer of a TinyOS sensor network (the MViz tool as
adapted for the acceleration-monitoring application). Motes send packets.
`MessageInput` receives each one and reads it through its generated
`get_...` getters. Field getters fill a field table and link getters fill a
link table. Each table entry then becomes an event posted to the document.
For packets from mote 1, the three acceleration readings are uploaded as a
small JSON object.

The document, `DDocument`, processes those events one at a time. It keeps a
get-or-create registry of motes indexed by id, and of directed links indexed
by the text key `"start end"`. A new mote is placed at a random point on
the canvas, registered with the sensor table and handed to every navigator
layer. Each mote, `DMoteModel`, keeps one reading, colour and size per
sensed field, and notifies its listeners on every change. The navigator,
`DNavigate`, is an ordered stack of layers (`DLayer`): one MOTE layer per
field, one LINK layer per link label and one FIELD layer per field. The
user reorders the layers one step at a time and picks how each is painted.
The canvas lets the user drag a mote with the mouse, and the table beside it
shows one row per mote.

The model has one module per source unit:

| module | file | source |
|---|---|---|
| `Basics` | basics.dfy | `Option`, and the `String`/`List` queries the code relies on (`startsWith`, `endsWith`, `indexOf`, iterator removal) |
| `Decimal` | decimal.dfy | `Integer.toString` / `"" + n`, a reader for it, and the integer form of a number in section 6 of RFC 8259 |
| `Motes` | motes.dfy | `DMoteModel`, as a class with array fields |
| `Layers` | layers.dfy | `DLayer`, as a class, plus the paint-mode constants and combo-box labels |
| `Navigation` | navigation.dfy | `DNavigate`, as a class over a sequence of layers |
| `Registry` | registry.dfy | `DDocument`: the registry, the two event kinds and `processEvent` |
| `Table` | table.dfy | `DDocument.DrawTableModel`: columns, rows, cells and `findModel` |
| `Canvas` | panel.dfy | `DDocument.DPanel`: the mouse handlers |
| `Messages` | messages.dfy | `MessageInput`: `messageReceived` and the body built by `updateOnParse` |
| `GetterBounds` | getters.dfy | why the three upload slots of `MessageInput` suffice |

Modelling choices, in brief:

- Random draws (`Random.nextInt`, `nextFloat`) become a `Draw` parameter whose values the caller chooses within the drawn ranges.
- Listeners are identity tokens. The table model is token `TABLE_LISTENER`.
- Events posted to the AWT queue, and notifications sent to listeners, are returned as sequences.
- Getters found by reflection become `Getter` tuples (name, has parameters, returns an array, value).
- Hashtable enumeration order is left open: the posting loops take keys in an arbitrary order, and their contracts do not depend on the order.

## Model

| member | source | states |
|---|---|---|
| Basics.IndexOf | mviz/DMoteModel.java:232-235 | `List.indexOf`: the result is -1 exactly when the element is absent; otherwise it is a position holding the element with no earlier occurrence |
| Basics.RemoveFirst | mviz/DMoteModel.java:332-344 | iterator removal of the first match: the list is unchanged when the element is absent, and one shorter otherwise |
| Basics.RemoveFirstMultiset | mviz/DMoteModel.java:332-344 | removing the first match takes exactly one copy of the element out of the multiset of elements |
| Basics.RemoveFirstNoDup | mviz/DMoteModel.java:332-344 | on a duplicate-free list, removing the first match removes the element entirely, keeps every other element, and keeps the list duplicate-free |
| Decimal.IntToStringRoundTrip | mviz/MessageInput.java:230 | every `Integer.toString` result is an RFC 8259 integer and reads back as the same integer |
| Decimal.IntToStringChars | mviz/DDocument.java:542 | a rendered integer holds only digits and '-', so it never contains the space of a link key or the ',' and '}' of a JSON body |
| Decimal.IntToStringInjective | mviz/DDocument.java:542 | distinct integers render as distinct text |
| Motes.JavaRem | mviz/DMoteModel.java:193 | Java's `%`: `a` equals the quotient truncated toward zero times `b` plus the remainder; the remainder of a non-negative number is in `0..b-1`, and that of a negative number is in `-(b-1)..0` |
| Motes.JavaDivRemUnique | mviz/DMoteModel.java:193 | those three facts pin the remainder down: any quotient and remainder that rebuild `a`, with the remainder of `a`'s sign and within `b` of zero, are Java's |
| Motes.SetColorAsWrittenNonNegative | mviz/DMoteModel.java:192-195 | for a non-negative reading, the colour `setColor` builds has every component in 0..255 |
| Motes.SetColorAsWrittenRejectsNegative | mviz/DMoteModel.java:192-195 | reading -5 makes `setColor` build (10, -5, 20), which java.awt.Color rejects |
| Motes.SetColor | mviz/DMoteModel.java:192-195 | the corrected colour is valid for every reading, agrees with `setColor` on non-negative readings, and has a green component congruent to the reading modulo COLOR_MAX |
| Motes.RemoveFirstAt | mviz/DMoteModel.java:336-340 | removing at the first position where the listener is found gives the list without its first occurrence |
| Motes.Mote.Random | mviz/DMoteModel.java:122-179 | the placing constructor: the position is at least 20 pixels in from the top-left corner and inside the canvas; each field gets the drawn reading, that reading's colour and the maximum size; there are no listeners yet |
| Motes.Mote.GetValue | mviz/DMoteModel.java:217-223 | the reading of a field slot, or 0 past the last slot |
| Motes.Mote.FireChanges | mviz/DMoteModel.java:350-356 | every registered listener is notified once, in registration order; there are no notifications without a list |
| Motes.Mote.SetValue | mviz/DMoteModel.java:265-268 | only the given slot changes, and then the listeners are notified |
| Motes.Mote.SetMoteValue | mviz/DMoteModel.java:232-240 | succeeds exactly when the field is sensed. On success the first slot of that name gets the value and its colour, and the listeners are notified; for a non-negative value that colour is the one `setColor` builds. An unknown field changes nothing. Colours keep matching readings |
| Motes.Mote.Move | mviz/DMoteModel.java:363-367 | the mote is placed at the given point, and the listeners are notified |
| Motes.Mote.ApplyDeltas | mviz/DMoteModel.java:270-274 | the mote is shifted by the deltas, and the listeners are notified |
| Motes.Mote.AddListener | mviz/DMoteModel.java:316-326 | the list is created when missing, and a listener not yet registered is appended, so each listener is registered at most once |
| Motes.Mote.RemoveListener | mviz/DMoteModel.java:332-344 | the first occurrence is removed; the listener is then unregistered; a missing list stays missing |
| Motes.EqualsEquivalence | mviz/DMoteModel.java:369-377 | mote equality is reflexive, symmetric and transitive |
| Layers.LabelModeBijection | mviz/DLayer.java:360-382 | every recognised combo-box choice selects a mode whose choice is itself, and each of the ten modes 0..9 has exactly one choice |
| Layers.DisplaysRecognised | mviz/DLayer.java:102-104 | every option a layer offers is recognised by the handler and selects a mode meant for that kind of layer; the first, preselected option selects the layer's initial mode |
| Layers.ColorModeScalesToByte | mviz/DLayer.java:129-140 | a colour mode's shift brings a non-negative reading of its range (256, 1024, 4096 or 16384) into 0..255 |
| Layers.ClampReading | mviz/DLayer.java:485-488 | the grey level is a component java.awt.Color accepts exactly when the reading is non-negative; it is never above 255 nor above the reading, and readings up to 255 pass unchanged |
| Layers.FieldSelection.constructor | mviz/DDocument.java:227 | the selected field index starts at 0 |
| Layers.Layer.constructor | mviz/DLayer.java:171-318 | a MOTE layer starts painted as ovals, a LINK layer as lines and a FIELD layer in "color 256"; the start mode suits the kind; the layer starts unchecked with no shapes |
| Layers.Layer.OnCheckAction | mviz/DLayer.java:335-353 | ticking the box makes the layer's group index the document's selected field; unticking leaves it; a FIELD layer is selected exactly while ticked |
| Layers.Layer.OnDisplayAction | mviz/DLayer.java:360-382 | a recognised choice sets its mode, and any other choice keeps the mode; a choice the layer offers gives a mode suited to its kind |
| Layers.Layer.UpdateIndex | mviz/DLayer.java:442-457 | the layer records its position and the depth derived from it |
| Layers.Layer.AddMote | mviz/DLayer.java:420-423 | one shape is appended for the mote |
| Layers.Layer.Init | mviz/DLayer.java:393-399 | a LINK layer adds nothing; any other layer adds one shape per model, in model order |
| Navigation.RemoveAt | mviz/DNavigate.java:194 | `list.remove(i)`: elements before `i` stay put and later ones shift down by one |
| Navigation.InsertAt | mviz/DNavigate.java:195 | `list.add(i, x)`: `x` lands at `i`, elements before it stay put and later ones shift up by one |
| Navigation.SwapAdjacent | mviz/DNavigate.java:190-210 | the two neighbours are exchanged, and every other position is unchanged |
| Navigation.SwapAdjacentPermutes | mviz/DNavigate.java:190-210 | exchanging neighbours permutes the layers |
| Navigation.RemoveInsertBefore | mviz/DNavigate.java:194-195 | removing the layer at `i + 1` and inserting it at `i` exchanges it with its upper neighbour |
| Navigation.RemoveInsertAfter | mviz/DNavigate.java:205-206 | removing the layer at `i` and inserting it at `i + 1` exchanges it with its lower neighbour |
| Navigation.SwapAdjacentInvolution | mviz/DNavigate.java:190-210 | moving a layer one step and back restores the order |
| Navigation.SwapKeepsMembers | mviz/DNavigate.java:190-210 | a move keeps the same layers, and keeps them distinct |
| Navigation.PositionsDistinct | mviz/DNavigate.java:150-169 | layers that each hold their own position are distinct |
| Navigation.GroupPrefix | mviz/DNavigate.java:136-142 | appending layers keeps the groups already built |
| Navigation.Navigator.constructor | mviz/DNavigate.java:69-118 | `2 * fields + links` layers: the MOTE group, then the LINK group, then the FIELD group, each with its own labels and indexed from 0 within the group; each layer is fresh and untouched, and its zIndex and depth match its position |
| Navigation.Navigator.BuildGroups | mviz/DNavigate.java:109-111 | the three groups are laid down in order, each layer fresh and untouched |
| Navigation.Navigator.AddLayer | mviz/DNavigate.java:136-142 | one fresh layer per label is appended; the running zIndex continues across groups, and the index counts from 0 within the group; earlier layers are untouched |
| Navigation.Navigator.UpdateLayerIndex | mviz/DNavigate.java:150-169 | every layer's zIndex becomes its position, with the depth derived from it; paint mode, check box and shapes are unchanged |
| Navigation.Navigator.MoveLayerUp | mviz/DNavigate.java:190-199 | the layer is exchanged with the one above it, and the top layer stays; positions are renumbered, and no layer's own state changes |
| Navigation.Navigator.MoveLayerDown | mviz/DNavigate.java:201-210 | the layer is exchanged with the one below it, and the bottom layer stays; positions are renumbered, and no layer's own state changes |
| Navigation.Navigator.BackgroundLayer | mviz/DNavigate.java:244-251 | the redraw starts from the first layer with a ticked FIELD box, or from the last layer when there is none |
| Navigation.Navigator.AddMote | mviz/DNavigate.java:120-127 | every layer gets exactly one new shape for the mote |
| Navigation.Navigator.Init | mviz/DNavigate.java:212-218 | every non-LINK layer gets one shape per model, and LINK layers are unchanged |
| Registry.LinkKeyInjective | mviz/DDocument.java:542 | link keys identify ordered pairs: equal keys mean equal pairs, and a link and its reverse have different keys |
| Registry.MotesIndexedAppend | mviz/DDocument.java:521-522 | appending a mote with a new id and indexing it at the end keeps the mote index exact |
| Registry.LinkSetIndexed | mviz/DDocument.java:581-588 | a link event keeps the link index exact; the link of the ordered pair receives the reading, appended to its earlier readings or as the first reading of a new link |
| Registry.LinkSetForwardOnly | mviz/DDocument.java:581-588 | a link event changes only the link of its ordered pair, adds at most one link, and leaves the reverse link alone |
| Registry.LinkSetEnds | mviz/DDocument.java:567-588 | a link event between registered motes keeps every link's ends registered |
| Registry.IndexMatchesList | mviz/DDocument.java:518-527 | while the document is valid, an id is registered exactly when a listed mote carries it, and no two listed motes share an id |
| Registry.EqualsMeansSameRow | mviz/DMoteModel.java:369-377 | while the document is valid, `equals` on listed motes is identity: two listed motes are equal exactly when they sit in the same row, and exactly when they are the same object |
| Registry.Document.MoteOf | mviz/DDocument.java:561 | the mote found under an id is listed and carries that id |
| Registry.Document.constructor | mviz/DDocument.java:296-376 | there are no motes or links yet, the selected field is 0, and the navigator holds `2 * fields + links` layers |
| Registry.Document.NewTableMote | mviz/DDocument.java:853-858 | a new randomly placed mote has the table registered as its one listener |
| Registry.Document.CreateNewMote | mviz/DDocument.java:518-527 | the new mote is appended and indexed under its id, listened to by the table, and handed to every layer once; links and selection are untouched; the registry invariant holds |
| Registry.Document.MoteFor | mviz/DDocument.java:561-564 | the id's mote is found, or else created at the end of the list; nothing else changes |
| Registry.Document.ProcessValueSet | mviz/DDocument.java:556-566 | a value event creates the mote if needed, then sets the reading and colour of the named field of that mote (an unknown field sets nothing); every other listed mote's readings and colours are unchanged, because no two motes share an array; each layer gets a shape for a created mote; the registry invariant holds |
| Registry.Document.CreateNewLink | mviz/DDocument.java:539-544 | the new link is appended and indexed under its key "start end", and the link index stays exact |
| Registry.Document.Endpoints | mviz/DDocument.java:573-580 | the start mote, then the end mote, are found or created and appended in that order; existing index entries are kept; each layer gets one shape per created mote, in the same order, and nothing else |
| Registry.Document.DeliverLinkValue | mviz/DDocument.java:581-588 | the link of the ordered pair is created when missing and then handed the reading; the index stays exact and the ends stay registered |
| Registry.Document.ProcessLinkSet | mviz/DDocument.java:567-590 | a link event registers both endpoints, adds a layer shape only for an endpoint it created, and changes only the link of its ordered pair; no mote's readings change; the registry invariant holds |
| Registry.Document.ProcessEvent | mviz/DDocument.java:553-592 | a value event: the mote is found or created, the named field's reading and colour are set, other motes and the links are unchanged. A link event: both ends are found or created, only the pair's link changes, and no mote's readings change. Either way the ids grow by exactly the event's motes, each layer gets one shape per created mote, and both invariants hold |
| Table.HeaderLayout | mviz/DDocument.java:796-811 | the header reads "X", "Y", then the field names in order, with one column per field plus two |
| Table.RowsMatchIds | mviz/DDocument.java:813-816 | with an exact index, rows and registered ids match one to one: every id names a row, distinct ids name distinct rows, and every row is named by an id |
| Table.CellReadsBack | mviz/DDocument.java:825-835 | every cell is an RFC 8259 integer that reads back as the mote's x, its y, or its reading of the column's field (0 past the last field) |
| Table.FindModelAsWritten | mviz/DDocument.java:875-885 | `findModel` as written returns row 0 for any non-empty table, whatever mote it is given |
| Table.FindModelAsWrittenMisses | mviz/DDocument.java:875-885 | for two distinct motes, the second sits in row 1 but the row the search as written reports (`AsWrittenRow`) is 0 |
| Table.FindModel | mviz/DDocument.java:875-885 | the corrected search returns -1 exactly when the mote is not listed; otherwise it returns the mote's first row |
| Canvas.FirstHit | mviz/DDocument.java:1110-1121 | the first listed mote within 20 pixels of the click in both directions, or -1 exactly when no mote is within range |
| Canvas.TravelTelescopes | mviz/DDocument.java:1133-1150 | over a sequence of drags, the mote travels the pointer's total displacement from the press point, provided no coordinate along the way is -1 |
| Canvas.TravelThroughSentinel | mviz/DDocument.java:1136-1141 | a drag through coordinate -1 loses that step: pressed at 0 and dragged through -1 to 5, the mote travels -1 |
| Canvas.Panel.constructor | mviz/DDocument.java:1093-1101 | no point seen yet (-1, -1) |
| Canvas.Panel.MousePressed | mviz/DDocument.java:1107-1122 | the click point is remembered; the first mote hit becomes the selection; a click that hits nothing keeps the selection |
| Canvas.Panel.MouseReleased | mviz/DDocument.java:1124-1130 | the selection is dropped, and the last point is forgotten when something was selected |
| Canvas.Panel.MouseDragged | mviz/DDocument.java:1133-1150 | the selected mote moves by the pointer's move since the last point (-1 counting as unseen), its listeners are notified, and the new point is remembered; with no selection nothing changes |
| Messages.Classify | mviz/MessageInput.java:123-159 | getters with parameters or an array result are skipped. A "get_" but not "get_link" name is routed to the field table under the rest of the name. A "get_link_" name is routed to the link table under the rest |
| Messages.ClassifyRoundTrip | mviz/MessageInput.java:126-159 | chopping a prefix loses nothing: a name built from a prefix and a rest is routed back to that table under that rest |
| Messages.TableOfEntry | mviz/MessageInput.java:118-171 | a key is in a table exactly when some getter is routed to it, and it holds the value of the last such getter |
| GetterBounds.DistinctGettersFitBuffer | mviz/MessageInput.java:114-139 | when parameterless getters have distinct names, as in the generated packet classes, at most three readings are kept, so the three slots of `valuesToSend` never overflow |
| Messages.AccelReadingsGrow | mviz/MessageInput.java:135-139 | the acceleration readings of the first getters are no more than those of all getters |
| Messages.UploadRoundTrip | mviz/MessageInput.java:228-233 | the upload body `{"X": a,"Y": b,"Z": c}` reads back as the three readings |
| Messages.BuildUploadBody | mviz/MessageInput.java:228-233 | the member-by-member loop, with the trailing comma dropped, produces exactly the upload body of the three slots |
| Messages.PostFieldValues | mviz/MessageInput.java:173-191 | exactly one value event per field-table key, for the origin mote, carrying that key's value, with no duplicates |
| Messages.PostLinkValues | mviz/MessageInput.java:192-206 | exactly one link event from the origin per "_value" key whose "_addr" partner is present; it is named by the base, carries the "_value" reading and ends at the "_addr" mote; unpaired keys yield nothing |
| Messages.VisitGetter | mviz/MessageInput.java:119-171 | one pass of the getter loop puts the getter's value under its key in its table, and reports whether it is an acceleration reading |
| Messages.CollectTables | mviz/MessageInput.java:115-172 | the tables are those of all getters in order; the acceleration readings fill the buffer from slot 0, and later slots are untouched |
| Messages.MessageInput.MessageReceived | mviz/MessageInput.java:107-218 | without an "origin" field nothing is dispatched. Otherwise every field entry becomes a value event for the origin and every paired link entry a link event from it. The buffer holds the acceleration readings then zeros, and the upload body is built exactly when the origin is 1 |

## Left out

- Painting, layout and Swing plumbing are not modelled. This covers `paintScreenBefore`'s inverse-distance shading (floating point; only its 255 cap is modelled, as `ClampReading`), `repaintLayer`, `redrawNavigator`, `paint`, the `fireTable*` notifications and the canvas image.
- Layers.ClampReading: caps from above only, as the source does. An averaged reading below 0 (the accelerations are signed) reaches `new Color(reading, reading, reading)` unchanged, and java.awt.Color would reject it. The painting that would throw is not modelled, so this is recorded here rather than as a finding.
- Motes.Mote.SetMoteValue: uses the corrected `SetColor`. For a negative value the source's `setColor` throws inside `setMoteValue`, before `setValue`: the reading is not stored, and no listener is told. The model stores the reading and a valid colour. On non-negative values the two agree.
- Registry.Document.ProcessValueSet: inherits this corrected colour through `SetMoteValue`. A negative reading is stored, where the source's event handler would throw.
- Registry.Document.ProcessEvent: inherits the same corrected colour on a value event.
- Registry.Document.CreateNewMote: `DLayer.addMote` builds a `DMote` shape for the mote. The `DMote` class is not part of this model, so a layer just records the mote, and any listener a shape might register is not modelled. This is why the table is stated to be a new mote's one listener.
- The canvas size is modelled as the constants `width` and `height` fixed when the document is built. The source reads the live canvas size at each placement, and the canvas can be resized.
- `Motes.DrawFits` requires the canvas to be more than 20 pixels wide and high. For a smaller canvas the source's `nextInt` throws `IllegalArgumentException`; that case is not modelled.
- `redrawAllLayers` is modelled only up to choosing the background layer (`Navigator.BackgroundLayer`). The paint loop from that layer to the top is not modelled, and neither are the redraw calls that end `processEvent`, `moveLayerUp`/`moveLayerDown` and `mouseDragged`.
- The AWT event queue is not modelled. `setMoteValue`/`setLinkValue` post events that `processEvent` later handles one at a time. In the model, `messageReceived` returns the events, and `ProcessEvent` takes them one at a time.
- Floating-point readings are not modelled. `DMoteModel` stores floats, and the random initial readings are `nextFloat() * 1000`. The model keeps integers, the initial readings being their integer parts in 0..999.
- Java reflection is not modelled. `getMethods` and `invoke` become a sequence of `Getter` tuples; the `Short`/`Integer` boxing and the two caught reflection exceptions are also left out.
- `Messages.MessageInput.MessageReceived`: requires at most three acceleration getters, where the source would throw `ArrayIndexOutOfBoundsException` on a fourth. `GetterBounds.DistinctGettersFitBuffer` shows that every generated packet class meets this, because such a class has one parameterless method per name.
- `Messages.MessageInput.MessageReceived`: a packet without "origin" makes the source throw a `NullPointerException` after its log line. This is modelled as the `MissingOrigin` outcome, with nothing dispatched and no upload.
- The HTTP POST of `updateOnParse` (client, headers, response) is not modelled. Only the body it sends is.
- The upload thread is not modelled either. It reads the `valuesToSend` field when it runs, so a later packet can replace the array first. The model builds the body from the array the same packet filled.
- `DLinkModel` is not part of this model. A link is a value record holding its ends and the (name, value) readings it was handed.
- `DrawTableModel.shapeChanged` and `remove` are not modelled beyond `findModel`: they only fire table notifications.
- `Registry.Document.NewTableMote`: the table listener is stated for a newly created mote, not kept as a document invariant.
- `Navigation.Navigator.MoveLayerUp`, `MoveLayerDown`: require a position within the list, where the source would throw `IndexOutOfBoundsException`.
- `Canvas.Panel.MousePressed`: the source assigns the document's `selected` field from inside the panel. The model treats the panel's document as that same document.
- `DMoteModel`'s other constructors (the explicit one and the empty one), the image/icon/size getters, `getColor` and `requestRepaint` are not modelled, because `processEvent` and the handlers modelled here never call them.
- The Parse application id and REST key in `updateOnParse` are not modelled.

## Findings

| source | as written | input that shows it | evidently intended | confidence | as-written member | corrected member |
|---|---|---|---|---|---|---|
| mviz/DMoteModel.java:192-195 | `setColor` uses Java's truncating `%`, so a negative reading gives a negative green component | reading -5 (the accelerations are signed) gives (10, -5, 20), which java.awt.Color rejects with an exception | a valid colour for every reading, the remainder taken non-negative | not executed | Motes.SetColorAsWrittenRejectsNegative | Motes.SetColor |
| mviz/DDocument.java:875-885 | `findModel`'s `return i` sits after the identity test instead of inside it | motes [a, b] and the changed mote b: it returns row 0, but b sits in row 1 | the row of the changed mote, or -1 when it is not listed | not executed | Table.FindModelAsWritten | Table.FindModel |
