/** The dictionary-driven frame codec: what a field table says, and the frame it builds, once with
    slice assignment (Python) and once by setting bits in a zeroed buffer (C). */
module Codec {
  import opened Common
  import opened Bits
  import opened FieldNames

  // ----- Field tables --------------------------------------------------------------------------

  /** A curated constraint: an inclusive range or a set of allowed values. */
  datatype Valid = Between(lo: int, hi: int) | OneOf(values: set<int>)

  predicate InValid(v: int, valid: Valid) {
    match valid
    case Between(lo, hi) => lo <= v <= hi
    case OneOf(values) => v in values
  }

  /** A range allows its values, both ends included, and no other. */
  lemma RangeIsSet(v: int, lo: int, hi: int, allowed: set<int>)
    requires forall x :: x in allowed <==> lo <= x <= hi
    ensures InValid(v, Between(lo, hi)) <==> InValid(v, OneOf(allowed))
  {
  }

  datatype Field = Field(name: Name, offset: nat, width: nat, default: Option<int>, valid: Option<Valid>) {
    function End(): nat {
      offset + width
    }

    predicate Fits(total: nat) {
      End() <= total
    }
  }

  /** A dictionary entry whose place in the frame may be unresolved. */
  datatype Entry = Placed(field: Field) | Unplaced(name: Name)

  /** The generated C form of a field: a default and a 32-bit membership mask behind flags. */
  datatype CField = CField(name: Name, offset: nat, width: nat, hasDefault: bool, hasValid: bool, def: nat, mask: nat)

  // ----- Choosing a field's value --------------------------------------------------------------

  datatype Failure = BeyondFrame | NoValue | TooWide | NotAllowed

  datatype Choice = Value(v: nat) | Bad(why: Failure)

  type Values = map<Name, int>

  function Given(f: Field, values: Values): Option<int> {
    if f.name in values then Some(values[f.name]) else f.default
  }

  /** The source's order of checks: frame, presence, width, allowed values. */
  function Choose(f: Field, values: Values, total: nat): Choice {
    if !f.Fits(total) then Bad(BeyondFrame)
    else
      match Given(f, values)
      case None => Bad(NoValue)
      case Some(v) =>
        if !(0 <= v < Pow2(f.width)) then Bad(TooWide)
        else if f.valid.Some? && !InValid(v, f.valid.value) then Bad(NotAllowed)
        else Value(v)
  }

  /** A name and value as passed to C: the first entry of a name counts. */
  datatype Kv = Kv(name: Name, value: nat, supplied: bool)

  function Lookup(kvs: seq<Kv>, name: Name): Option<nat> {
    if kvs == [] then None
    else if kvs[0].name == name then Some(kvs[0].value)
    else Lookup(kvs[1..], name)
  }

  function CGiven(f: CField, kvs: seq<Kv>): Option<nat> {
    match Lookup(kvs, f.name)
    case Some(v) => Some(v)
    case None => if f.hasDefault then Some(f.def) else None
  }

  /** Bit `v` of the mask, with the shift kept below 32. */
  predicate MaskAllows(mask: nat, v: nat) {
    v < 32 && Odd(Shift(mask, v))
  }

  function CChoose(f: CField, kvs: seq<Kv>, total: nat): Choice {
    if f.offset + f.width > total then Bad(BeyondFrame)
    else
      match CGiven(f, kvs)
      case None => Bad(NoValue)
      case Some(v) =>
        if f.width < 32 && v > Pow2(f.width) - 1 then Bad(TooWide)
        else if f.hasValid && !MaskAllows(f.mask, v) then Bad(NotAllowed)
        else Value(v)
  }

  // ----- Building a frame ----------------------------------------------------------------------

  /** The frame's bits, or the first field that fails and why. */
  datatype Built = Frame(bits: seq<bool>) | Fail(why: Failure, at: nat)

  /** Slice assignment. */
  function Overwrite(frame: seq<bool>, offset: nat, bits: seq<bool>): (r: seq<bool>)
    requires offset + |bits| <= |frame|
    ensures |r| == |frame|
  {
    frame[..offset] + bits + frame[offset + |bits|..]
  }

  /** Setting the bits that are 1. */
  function OrInto(frame: seq<bool>, offset: nat, bits: seq<bool>): (r: seq<bool>)
    requires offset + |bits| <= |frame|
    ensures |r| == |frame|
    ensures forall j :: 0 <= j < |r| ==> r[j] == (frame[j] || (offset <= j < offset + |bits| && bits[j - offset]))
  {
    seq(|frame|, j requires 0 <= j < |frame| =>
      frame[j] || (offset <= j < offset + |bits| && bits[j - offset]))
  }

  function Build(fields: seq<Field>, values: Values, total: nat): (b: Built)
    ensures b.Frame? ==> |b.bits| == total
    decreases |fields|
  {
    if fields == [] then Frame(Zeros(total))
    else
      var n := |fields| - 1;
      var before := Build(fields[..n], values, total);
      if before.Fail? then before
      else
        match Choose(fields[n], values, total)
        case Bad(why) => Fail(why, n)
        case Value(v) => Frame(Overwrite(before.bits, fields[n].offset, BitsOf(v, fields[n].width)))
  }

  function CBuild(fields: seq<CField>, kvs: seq<Kv>, total: nat): (b: Built)
    ensures b.Frame? ==> |b.bits| == total
    decreases |fields|
  {
    if fields == [] then Frame(Zeros(total))
    else
      var n := |fields| - 1;
      var before := CBuild(fields[..n], kvs, total);
      if before.Fail? then before
      else
        match CChoose(fields[n], kvs, total)
        case Bad(why) => Fail(why, n)
        case Value(v) => Frame(OrInto(before.bits, fields[n].offset, BitsOf(v, fields[n].width)))
  }

  /** The placed fields, in table order. */
  function PlacedOf(entries: seq<Entry>): seq<Field>
    decreases |entries|
  {
    if entries == [] then []
    else
      var n := |entries| - 1;
      if entries[n].Placed? then PlacedOf(entries[..n]) + [entries[n].field] else PlacedOf(entries[..n])
  }

  predicate Missing(entries: seq<Entry>, values: Values) {
    exists e :: e in entries && e.Unplaced? && e.name !in values
  }

  /** The furthest field end, for an unpinned frame. */
  function MaxEnd(fields: seq<Field>): nat {
    if fields == [] then 0 else Max(fields[0].End(), MaxEnd(fields[1..]))
  }

  // ----- Reading a frame -----------------------------------------------------------------------

  function Slice(bits: seq<bool>, offset: nat, width: nat): (part: seq<bool>)
    requires offset + width <= |bits|
    ensures |part| == width
  {
    bits[offset..offset + width]
  }

  function FieldValue(f: Field, bits: seq<bool>): nat
    requires f.Fits(|bits|)
  {
    ValueOf(Slice(bits, f.offset, f.width))
  }

  /** Every field that lies within the frame; a later field of a name replaces an earlier one. */
  function Decoded(fields: seq<Field>, bits: seq<bool>): Values
    decreases |fields|
  {
    if fields == [] then map[]
    else
      var f := fields[|fields| - 1];
      var before := Decoded(fields[..|fields| - 1], bits);
      if f.Fits(|bits|) then before[f.name := FieldValue(f, bits)] else before
  }

  function CDecoded(fields: seq<CField>, bits: seq<bool>): (kvs: seq<Kv>)
    ensures |kvs| <= |fields|
    decreases |fields|
  {
    if fields == [] then []
    else
      var f := fields[|fields| - 1];
      CDecoded(fields[..|fields| - 1], bits)
        + if f.offset + f.width <= |bits| then [Kv(f.name, ValueOf(Slice(bits, f.offset, f.width)), true)] else []
  }

  // ----- Hypotheses ----------------------------------------------------------------------------

  predicate Apart(a: Field, b: Field) {
    a.End() <= b.offset || b.End() <= a.offset
  }

  predicate Disjoint(fields: seq<Field>) {
    forall i, j :: 0 <= i < j < |fields| ==> Apart(fields[i], fields[j])
  }

  predicate UniqueNames(fields: seq<Field>) {
    forall i, j :: 0 <= i < j < |fields| ==> fields[i].name != fields[j].name
  }

  predicate Covers(f: Field, j: nat) {
    f.offset <= j < f.End()
  }

  predicate InSome(fields: seq<Field>, j: nat) {
    exists i :: 0 <= i < |fields| && Covers(fields[i], j)
  }

  const WORD := 0x1_0000_0000

  /** What the generator makes of a field: same place, default and allowed values. */
  ghost predicate SameField(f: Field, c: CField) {
    && f.name == c.name && f.offset == c.offset && f.width == c.width && 1 <= c.width <= 32
    && f.default == (if c.hasDefault then Some(c.def) else None) && c.def < WORD
    && f.valid.Some? == c.hasValid
    && (c.hasValid ==> forall v: nat :: InValid(v, f.valid.value) <==> MaskAllows(c.mask, v))
  }

  ghost predicate SameTable(fields: seq<Field>, table: seq<CField>) {
    |fields| == |table| && forall i :: 0 <= i < |fields| ==> SameField(fields[i], table[i])
  }

  /** The C list says what the Python mapping says, in 32 bits. */
  ghost predicate SameValues(values: Values, kvs: seq<Kv>) {
    && (forall name :: Lookup(kvs, name) == if name in values then Some(values[name]) else None)
    && (forall i :: 0 <= i < |kvs| ==> kvs[i].value < WORD)
  }
}
