/** One row of the navigator (DLayer): a MOTE, LINK or FIELD layer with a
    check box, a combo box choosing how it is painted, its position in the
    navigator and the mote shapes it draws. */
module Layers {
  import opened Basics
  import opened Decimal
  import opened Motes

  datatype LayerKind = MoteLayer | LinkLayer | FieldLayer

  /** The integer constants MOTE = 0, LINK = 1, FIELD = 2. */
  function KindCode(kind: LayerKind): int {
    match kind
    case MoteLayer => 0
    case LinkLayer => 1
    case FieldLayer => 2
  }

  // Paint modes. The colour modes are right-shift amounts that bring a
  // reading of the named range into 0..255.
  const COLOR_256 := 0
  const OVAL := 1
  const COLOR_1024 := 2
  const IMG := 3
  const COLOR_4096 := 4
  const TXT_MOTE := 5
  const COLOR_16384 := 6
  const LINE := 7
  const LABEL := 8
  const LINE_LABEL := 9

  /** The combo-box options offered for each kind of layer. */
  function Displays(kind: LayerKind): seq<string> {
    match kind
    case MoteLayer => ["circle", "img", "txt"]
    case LinkLayer => ["line", "line+label", "label"]
    case FieldLayer => ["color 256", "color 1024", "color 4096", "color 16384"]
  }

  /** The paint mode a layer starts with. */
  function InitialPaintMode(kind: LayerKind): int {
    if kind == MoteLayer then OVAL
    else if kind == LinkLayer then LINE
    else COLOR_256
  }

  /** The paint mode the combo-box choice selects; None for a choice the
      handler does not recognise. */
  function ModeOfLabel(choice: string): Option<int> {
    if choice == "circle" then Some(OVAL)
    else if choice == "img" then Some(IMG)
    else if choice == "txt" then Some(TXT_MOTE)
    else if choice == "color 256" then Some(COLOR_256)
    else if choice == "color 1024" then Some(COLOR_1024)
    else if choice == "color 4096" then Some(COLOR_4096)
    else if choice == "color 16384" then Some(COLOR_16384)
    else if choice == "line" then Some(LINE)
    else if choice == "label" then Some(LABEL)
    else if choice == "line+label" then Some(LINE_LABEL)
    else None
  }

  /** The choice that selects each paint mode (an independent table, read
      from the constants' side). */
  function LabelOfMode(mode: int): Option<string> {
    match mode
    case 0 => Some("color 256")
    case 1 => Some("circle")
    case 2 => Some("color 1024")
    case 3 => Some("img")
    case 4 => Some("color 4096")
    case 5 => Some("txt")
    case 6 => Some("color 16384")
    case 7 => Some("line")
    case 8 => Some("label")
    case 9 => Some("line+label")
    case _ => None
  }

  /** Label and mode determine each other: every recognised choice is the
      choice of its mode, and every mode 0..9 has a choice that selects it. */
  lemma LabelModeBijection(choice: string, mode: int)
    ensures ModeOfLabel(choice).Some? ==> LabelOfMode(ModeOfLabel(choice).value) == Some(choice)
    ensures 0 <= mode <= 9 <==> LabelOfMode(mode).Some?
    ensures LabelOfMode(mode).Some? ==> ModeOfLabel(LabelOfMode(mode).value) == Some(mode)
  {
  }

  predicate IsColorMode(mode: int) {
    mode == COLOR_256 || mode == COLOR_1024 || mode == COLOR_4096 || mode == COLOR_16384
  }

  /** The modes a layer of each kind is meant to be painted with. */
  predicate ModeSuitsKind(kind: LayerKind, mode: int) {
    match kind
    case MoteLayer => mode == OVAL || mode == IMG || mode == TXT_MOTE
    case LinkLayer => mode == LINE || mode == LINE_LABEL || mode == LABEL
    case FieldLayer => IsColorMode(mode)
  }

  /** Every option a layer offers is recognised by the handler and selects a
      mode of that layer's kind; the first option selects the initial mode. */
  lemma DisplaysRecognised(kind: LayerKind, k: int)
    requires 0 <= k < |Displays(kind)|
    ensures ModeOfLabel(Displays(kind)[k]).Some?
    ensures ModeSuitsKind(kind, ModeOfLabel(Displays(kind)[k]).value)
    ensures ModeOfLabel(Displays(kind)[0]) == Some(InitialPaintMode(kind))
  {
  }

  function Pow2(n: nat): (p: nat)
    ensures p >= 1
  {
    if n == 0 then 1 else 2 * Pow2(n - 1)
  }

  /** Java's `v >> n` on an int: an arithmetic shift, i.e. floor division. */
  function ShiftRight(v: int, n: nat): int {
    v / Pow2(n)
  }

  /** A non-negative reading below 256 * 2^mode, shifted by a colour mode,
      lands in 0..255 (the "color 256/1024/4096/16384" ranges). */
  lemma ColorModeScalesToByte(v: int, mode: int)
    requires IsColorMode(mode)
    requires 0 <= v < 256 * Pow2(mode)
    ensures 0 <= ShiftRight(v, mode) < 256
  {
    var p := Pow2(mode);
    var q := v / p;
    assert v == q * p + v % p;
  }

  /** The grey level of a computed cell reading: capped at 255 from above
      only. It is a component java.awt.Color accepts exactly when the
      reading is non-negative; readings up to 255 pass unchanged. */
  function ClampReading(reading: int): (level: int)
    ensures 0 <= level <= 255 <==> 0 <= reading
    ensures level <= 255 && level <= reading
    ensures reading <= 255 ==> level == reading
  {
    if reading > 255 then 255 else reading
  }

  /** Holds DDocument.selectedFieldIndex, which every layer's check box writes. */
  class FieldSelection {
    var selectedFieldIndex: int

    constructor()
      ensures selectedFieldIndex == 0
    {
      selectedFieldIndex := 0;
    }
  }

  class Layer {
    const kind: LayerKind
    /** Position within the layer's own group of labels. */
    const index: int
    const name: string
    const parent: FieldSelection
    /** Position within the navigator. */
    var zIndex: int
    /** Stacking depth derived from the position (z_index). */
    var zDepth: int
    var paintMode: int
    var checked: bool
    /** The mote shapes the layer draws, one per mote handed to it. */
    var shapes: seq<Mote>

    constructor(zIndex: int, index: int, caption: string, kind: LayerKind, parent: FieldSelection)
      ensures this.zIndex == zIndex && this.index == index && name == caption
      ensures this.kind == kind && this.parent == parent
      ensures paintMode == InitialPaintMode(kind) && ModeSuitsKind(kind, paintMode)
      ensures zDepth == 0 && !checked && shapes == []
    {
      this.kind := kind;
      this.index := index;
      this.name := caption;
      this.parent := parent;
      this.zIndex := zIndex;
      zDepth := 0;
      checked := false;
      shapes := [];
      paintMode := 0;
      if kind == MoteLayer {
        paintMode := OVAL;
      } else if kind == LinkLayer {
        paintMode := LINE;
      }
    }

    predicate IsFieldSelected()
      reads this
    {
      kind == FieldLayer && checked
    }

    function ToString(): string {
      "Layer " + name + " " + IntToString(KindCode(kind))
    }

    /** The check box was clicked and now reads `nowChecked`; ticking any
        layer's box makes its group index the document's selected field. */
    method OnCheckAction(nowChecked: bool)
      modifies this`checked, parent
      ensures checked == nowChecked
      ensures nowChecked ==> parent.selectedFieldIndex == index
      ensures !nowChecked ==> parent.selectedFieldIndex == old(parent.selectedFieldIndex)
      ensures IsFieldSelected() <==> nowChecked && kind == FieldLayer
    {
      checked := nowChecked;
      if checked {
        parent.selectedFieldIndex := index;
      }
    }

    /** The combo box now shows `choice`; an unrecognised choice keeps the mode. */
    method OnDisplayAction(choice: string)
      modifies this`paintMode
      ensures paintMode == ModeOfLabel(choice).GetOr(old(paintMode))
      ensures choice in Displays(kind) ==> ModeSuitsKind(kind, paintMode)
    {
      if choice in Displays(kind) {
        var k :| 0 <= k < |Displays(kind)| && Displays(kind)[k] == choice;
        DisplaysRecognised(kind, k);
      }
      if choice == "circle" {
        paintMode := OVAL;
      } else if choice == "img" {
        paintMode := IMG;
      } else if choice == "txt" {
        paintMode := TXT_MOTE;
      } else if choice == "color 256" {
        paintMode := COLOR_256;
      } else if choice == "color 1024" {
        paintMode := COLOR_1024;
      } else if choice == "color 4096" {
        paintMode := COLOR_4096;
      } else if choice == "color 16384" {
        paintMode := COLOR_16384;
      } else if choice == "line" {
        paintMode := LINE;
      } else if choice == "label" {
        paintMode := LABEL;
      } else if choice == "line+label" {
        paintMode := LINE_LABEL;
      }
    }

    /** Records position `i` of `totalLayers`. */
    method UpdateIndex(i: int, totalLayers: int)
      modifies this`zIndex, this`zDepth
      ensures zIndex == i && zDepth == (totalLayers - i) * 100
    {
      zIndex := i;
      zDepth := (totalLayers - zIndex) * 100;
    }

    method AddMote(m: Mote)
      modifies this`shapes
      ensures shapes == old(shapes) + [m]
    {
      shapes := shapes + [m];
    }

    /** A LINK layer adds nothing; any other layer adds one shape per model,
        in model order. */
    method Init(models: seq<Mote>)
      modifies this`shapes
      ensures shapes == if kind == LinkLayer then old(shapes) else old(shapes) + models
    {
      if kind == LinkLayer {
        return;
      }
      for i := 0 to |models|
        invariant shapes == old(shapes) + models[..i]
      {
        AddMote(models[i]);
        assert models[..i + 1] == models[..i] + [models[i]];
      }
      assert models[..|models|] == models;
    }
  }
}
