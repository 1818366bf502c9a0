/** The per-mote record of the viewer (DMoteModel): a position on the
    canvas, one reading, one colour and one shape size per sensed field, and
    the listeners told about every change. */
module Motes {
  import opened Basics

  const SHAPE_SIZE_MAX := 100
  const COLOR_MAX := 230

  /** Listeners are compared by identity; a token stands for each one. */
  type ListenerId = nat

  datatype Rgb = Rgb(red: int, green: int, blue: int)

  /** What java.awt.Color's constructor accepts: every component in 0..255. */
  predicate ColorComponentsValid(c: Rgb) {
    0 <= c.red <= 255 && 0 <= c.green <= 255 && 0 <= c.blue <= 255
  }

  /** Java's `a / b` for a positive `b`: the quotient truncated toward zero. */
  function JavaDiv(a: int, b: int): int
    requires b > 0
  {
    if a >= 0 then a / b else -((-a) / b)
  }

  /** Java's `a % b` for a positive `b`: what `a` leaves over the truncated
      quotient, so it takes the sign of `a` and stays within `b` of zero. */
  function JavaRem(a: int, b: int): (r: int)
    requires b > 0
    ensures a == JavaDiv(a, b) * b + r
    ensures a >= 0 ==> 0 <= r < b
    ensures a < 0 ==> -b < r <= 0
  {
    if a >= 0 then a % b else -((-a) % b)
  }

  /** A multiple of `b` strictly within `b` of zero is zero. */
  lemma SmallMultiple(k: int, b: int)
    requires b > 0 && -b < k * b < b
    ensures k == 0
  {
  }

  /** The truncated quotient and the remainder are the only pair that
      rebuilds `a` with a remainder of `a`'s sign within `b` of zero. */
  lemma JavaDivRemUnique(a: int, b: int, q: int, r: int)
    requires b > 0 && a == q * b + r
    requires a >= 0 ==> 0 <= r < b
    requires a < 0 ==> -b < r <= 0
    ensures q == JavaDiv(a, b) && r == JavaRem(a, b)
  {
    var q0, r0 := JavaDiv(a, b), JavaRem(a, b);
    assert (q - q0) * b == r0 - r;
    SmallMultiple(q - q0, b);
  }

  /** `setColor` as the source writes it: the truncating remainder of the
      reading by COLOR_MAX, offset per channel. */
  function SetColorAsWritten(v: int): (c: Rgb) {
    var k := JavaRem(v, COLOR_MAX);
    Rgb(k + 15, k, k + 25)
  }

  /** For a non-negative reading the written colour is valid, each
      component in 0..254. */
  lemma SetColorAsWrittenNonNegative(v: int)
    requires v >= 0
    ensures ColorComponentsValid(SetColorAsWritten(v))
    ensures SetColorAsWritten(v).blue <= 254
  {
  }

  /** A negative reading (the accelerations are signed 16-bit values) gives a
      negative green component, which java.awt.Color rejects. */
  lemma SetColorAsWrittenRejectsNegative()
    ensures SetColorAsWritten(-5) == Rgb(10, -5, 20)
    ensures !ColorComponentsValid(SetColorAsWritten(-5))
  {
  }

  /** The colour of a reading, with the remainder taken non-negative so that
      every reading yields a colour java.awt.Color accepts. It is the written
      colour for every reading the source handles. */
  function SetColor(v: int): (c: Rgb)
    ensures ColorComponentsValid(c) && c.blue <= 254
    ensures v >= 0 ==> c == SetColorAsWritten(v)
    ensures 0 <= c.green < COLOR_MAX && (v - c.green) % COLOR_MAX == 0
  {
    var k := v % COLOR_MAX;
    Rgb(k + 15, k, k + 25)
  }

  /** `setShapeSize`: every reading gets the maximum size. */
  function SetShapeSize(v: int): int {
    SHAPE_SIZE_MAX
  }

  /** The random draws of the placing constructor: `nextInt` results for the
      two coordinates and the initial readings (floats in [0, 1000) kept as
      their integer part). */
  datatype Draw = Draw(dx: int, dy: int, readings: seq<int>)

  predicate DrawFits(d: Draw, width: int, height: int, fieldCount: nat) {
    && 0 <= d.dx < width - 20
    && 0 <= d.dy < height - 20
    && |d.readings| == fieldCount
    && forall i :: 0 <= i < |d.readings| ==> 0 <= d.readings[i] < 1000
  }

  lemma {:induction false} RemoveFirstAt<T>(s: seq<T>, x: T, i: nat)
    requires i < |s| && s[i] == x && x !in s[..i]
    ensures RemoveFirst(s, x) == s[..i] + s[i + 1..]
  {
    if i > 0 {
      assert s[0] in s[..i];
      assert s[1..][..i - 1] == s[1..i];
      RemoveFirstAt(s[1..], x, i - 1);
      assert s[..i] == [s[0]] + s[1..i];
    }
  }

  class Mote {
    const id: int
    /** The document's sensed field names, one slot per name. */
    const fields: seq<string>
    var x: int
    var y: int
    const values: array<int>
    const colors: array<Rgb>
    const sizes: array<int>
    /** None stands for the list not yet allocated (null). */
    var listeners: Option<seq<ListenerId>>

    /** One reading, colour and size slot per field, in separate arrays. */
    predicate Shaped() {
      values.Length == |fields| && colors.Length == |fields| && sizes.Length == |fields| && values != sizes
    }

    ghost predicate Valid()
      reads this
    {
      Shaped() && (listeners.Some? ==> NoDup(listeners.value))
    }

    /** Every colour is the colour of the reading in the same slot. */
    ghost predicate ColorsMatch()
      reads values, colors
    {
      values.Length == colors.Length && forall i :: 0 <= i < values.Length ==> colors[i] == SetColor(values[i])
    }

    /** The listeners a change notifies, in registration order. */
    function Registered(): seq<ListenerId>
      reads this
    {
      listeners.GetOr([])
    }

    /** The placing constructor: a uniform position at least 20 pixels in
        from the top-left corner, and one reading, colour and size per
        sensed field. */
    constructor Random(id: int, fields: seq<string>, width: int, height: int, draw: Draw)
      requires DrawFits(draw, width, height, |fields|)
      ensures Valid() && ColorsMatch() && fresh(values) && fresh(colors) && fresh(sizes)
      ensures this.id == id && this.fields == fields
      ensures x == 20 + draw.dx && y == 20 + draw.dy
      ensures 20 <= x < width && 20 <= y < height
      ensures values[..] == draw.readings
      ensures forall i :: 0 <= i < |fields| ==> colors[i] == SetColor(draw.readings[i]) && sizes[i] == SHAPE_SIZE_MAX
      ensures listeners == None
    {
      this.id := id;
      this.fields := fields;
      x := 20 + draw.dx;
      y := 20 + draw.dy;
      values := new int[|fields|];
      colors := new Rgb[|fields|];
      sizes := new int[|fields|];
      listeners := None;
      new;
      for i := 0 to |fields|
        invariant x == 20 + draw.dx && y == 20 + draw.dy && listeners == None
        invariant values[..i] == draw.readings[..i]
        invariant forall k :: 0 <= k < i ==> colors[k] == SetColor(draw.readings[k]) && sizes[k] == SHAPE_SIZE_MAX
      {
        values[i] := draw.readings[i];
        colors[i] := SetColor(values[i]);
        sizes[i] := SetShapeSize(values[i]);
      }
    }

    /** The reading of field `index`, or 0 past the last field. */
    function GetValue(index: int): (r: int)
      reads this, values
      requires 0 <= index
      ensures index < values.Length ==> r == values[index]
      ensures values.Length <= index ==> r == 0
    {
      if values.Length <= index then 0 else values[index]
    }

    /** Notifies every registered listener once, in registration order, and
        reports whom it notified. */
    method FireChanges() returns (notified: seq<ListenerId>)
      ensures notified == Registered()
    {
      notified := [];
      if listeners.None? {
        return;
      }
      var ls := listeners.value;
      for i := 0 to |ls|
        invariant notified == ls[..i]
      {
        notified := notified + [ls[i]];
      }
      assert ls[..|ls|] == ls;
    }

    method SetValue(index: int, value: int) returns (notified: seq<ListenerId>)
      requires 0 <= index < values.Length
      modifies values
      ensures values[..] == old(values[..])[index := value]
      ensures notified == Registered()
    {
      values[index] := value;
      notified := FireChanges();
    }

    /** Sets the reading and colour of the first field named `field`; an
        unknown field changes nothing and is reported by `false`. */
    method SetMoteValue(field: string, value: int) returns (ok: bool, notified: seq<ListenerId>)
      requires Shaped()
      modifies values, colors
      ensures old(ColorsMatch()) ==> ColorsMatch()
      ensures ok <==> field in fields
      ensures ok ==> values[..] == old(values[..])[IndexOf(fields, field) := value]
      ensures ok ==> colors[..] == old(colors[..])[IndexOf(fields, field) := SetColor(value)]
      ensures ok && value >= 0 ==> colors[IndexOf(fields, field)] == SetColorAsWritten(value)
      ensures ok ==> GetValue(IndexOf(fields, field)) == value && notified == Registered()
      ensures !ok ==> values[..] == old(values[..]) && colors[..] == old(colors[..]) && notified == []
    {
      var index := IndexOf(fields, field);
      if index < 0 {
        return false, [];
      }
      colors[index] := SetColor(value);
      notified := SetValue(index, value);
      ok := true;
    }

    /** Places the mote at (`nx`, `ny`). */
    method Move(nx: int, ny: int) returns (notified: seq<ListenerId>)
      modifies this`x, this`y
      ensures x == nx && y == ny
      ensures notified == Registered()
    {
      x := nx;
      y := ny;
      notified := FireChanges();
    }

    /** Shifts the mote by (`dx`, `dy`). */
    method ApplyDeltas(dx: int, dy: int) returns (notified: seq<ListenerId>)
      modifies this`x, this`y
      ensures x == old(x) + dx && y == old(y) + dy
      ensures notified == Registered()
    {
      x := x + dx;
      y := y + dy;
      notified := FireChanges();
    }

    /** Registers `l` unless it is registered already (compared by identity). */
    method AddListener(l: ListenerId)
      requires Valid()
      modifies this`listeners
      ensures Valid() && listeners.Some?
      ensures old(listeners).None? ==> listeners == Some([l])
      ensures Registered() == if l in old(Registered()) then old(Registered()) else old(Registered()) + [l]
    {
      if listeners.None? {
        listeners := Some([]);
      }
      var ls := listeners.value;
      var i := 0;
      while i < |ls|
        invariant 0 <= i <= |ls|
        invariant l !in ls[..i]
      {
        if ls[i] == l {
          return;
        }
        i := i + 1;
      }
      assert ls[..i] == ls;
      assert old(listeners).None? ==> ls + [l] == [l];
      listeners := Some(ls + [l]);
    }

    /** Unregisters the first occurrence of `l`; a missing list or listener
        changes nothing. */
    method RemoveListener(l: ListenerId)
      requires Valid()
      modifies this`listeners
      ensures Valid()
      ensures listeners.None? <==> old(listeners).None?
      ensures Registered() == RemoveFirst(old(Registered()), l)
      ensures l !in Registered()
    {
      if listeners.None? {
        return;
      }
      var ls := listeners.value;
      RemoveFirstNoDup(ls, l);
      var i := 0;
      while i < |ls|
        invariant 0 <= i <= |ls|
        invariant l !in ls[..i]
      {
        if ls[i] == l {
          RemoveFirstAt(ls, l, i);
          listeners := Some(ls[..i] + ls[i + 1..]);
          return;
        }
        i := i + 1;
      }
      assert ls[..i] == ls;
    }

    /** Two records are equal exactly when the other is a mote with the same id. */
    function Equals(o: object?): (r: bool)
      ensures r <==> o is Mote && (o as Mote).id == id
    {
      o is Mote && (o as Mote).id == id
    }
  }

  /** Mote equality is an equivalence: reflexive, symmetric and transitive. */
  lemma EqualsEquivalence(a: Mote, b: Mote, c: Mote)
    ensures a.Equals(a)
    ensures a.Equals(b) <==> b.Equals(a)
    ensures a.Equals(b) && b.Equals(c) ==> a.Equals(c)
  {
  }
}
