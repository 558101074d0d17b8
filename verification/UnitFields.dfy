/** The editable fields of a unit: their validation and normal form, how two
    units are compared, and how a unit travels to another instance and back. */
module UnitFields {
  import opened Wrappers

  const MAX_NAME_LENGTH := 64
  const MAX_TACTICAL_NAME_PART_LENGTH := 32
  const MAX_SYMBOL_ID_LENGTH := 64

  datatype UnitError =
    | UnitNotFound
    | NameTaken
    | InvalidName
    | InvalidPosition
    | InvalidSymbol
    | InvalidTacticalName
    | UnitSynced
    | NotMirrored
    | RemoteMissing  // the foreign key to the sync remote is violated

  // ---------- Numbers and times ----------

  /** A float64. `Num` is every finite value, so its bounds are +-MaxFloat64. */
  datatype Float = Num(v: real) | Inf(negative: bool) | NaN

  /** Go's `==` on floats. */
  predicate FloatEq(a: Float, b: Float) {
    !a.NaN? && a == b
  }

  predicate FloatGe(a: Float, bound: real) {
    match a
    case Num(v) => v >= bound
    case Inf(negative) => !negative
    case NaN => false
  }

  predicate FloatLe(a: Float, bound: real) {
    match a
    case Num(v) => v <= bound
    case Inf(negative) => negative
    case NaN => false
  }

  /** An instant together with the location it is shown in; UTC is location 0. */
  datatype Time = Time(instant: int, zone: int) {
    function UTC(): Time { Time(instant, 0) }

    predicate Equal(other: Time) { instant == other.instant }
  }

  datatype Position = Position(
    latitude: Float, longitude: Float,
    height: Option<Float>, accuracy: Option<Float>,
    speed: Option<Float>, course: Option<Float>,
    timestamp: Time)

  /** The strings of a symbol or of a tactical name, in the order of Fields(). */
  type Parts = seq<string>

  datatype Input = Input(
    name: string, position: Option<Position>,
    symbol: Option<Parts>, tacticalName: Option<Parts>)

  // ---------- Text ----------

  /** unicode.IsSpace */
  predicate IsSpace(c: char) {
    var n := c as int;
    || 9 <= n <= 13 || n == 32 || n == 0x85 || n == 0xA0 || n == 0x1680
    || 0x2000 <= n <= 0x200A || n == 0x2028 || n == 0x2029
    || n == 0x202F || n == 0x205F || n == 0x3000
  }

  /** unicode.IsControl */
  predicate IsControl(c: char) {
    var n := c as int;
    n < 32 || 0x7F <= n < 0xA0
  }

  function SkipLeft(s: string, from: nat): (to: nat)
    requires from <= |s|
    ensures from <= to <= |s| && (to < |s| ==> !IsSpace(s[to]))
    ensures forall i | from <= i < to :: IsSpace(s[i])
    decreases |s| - from
  {
    if from < |s| && IsSpace(s[from]) then SkipLeft(s, from + 1) else from
  }

  function SkipRight(s: string, low: nat, from: nat): (to: nat)
    requires low <= from <= |s|
    ensures low <= to <= from && (low < to ==> !IsSpace(s[to - 1]))
    ensures forall i | to <= i < from :: IsSpace(s[i])
  {
    if low < from && IsSpace(s[from - 1]) then SkipRight(s, low, from - 1) else from
  }

  /** strings.TrimSpace */
  function Trim(s: string): string {
    var start := SkipLeft(s, 0);
    s[start..SkipRight(s, start, |s|)]
  }

  predicate Trimmed(s: string) {
    s != "" ==> !IsSpace(s[0]) && !IsSpace(s[|s| - 1])
  }

  /** Trim cuts off white space only, and all of it. */
  lemma TrimCuts(s: string) returns (start: nat, end: nat)
    ensures start <= end <= |s| && Trim(s) == s[start..end] && Trimmed(Trim(s))
    ensures forall i | 0 <= i < start || end <= i < |s| :: IsSpace(s[i])
  {
    start := SkipLeft(s, 0);
    end := SkipRight(s, start, |s|);
    if start < end {
      assert Trim(s)[0] == s[start] && Trim(s)[end - start - 1] == s[end - 1];
    }
  }

  /** The fixed points of Trim are the trimmed strings. */
  lemma TrimFixedPoints(s: string)
    ensures Trim(s) == s <==> Trimmed(s)
  {
    var start, end := TrimCuts(s);
    if Trimmed(s) && s != "" {
      assert start == 0;
      assert end == |s|;
    }
  }

  // ---------- Symbol and tactical name ----------

  datatype PartKind = SymbolPart | TacticalPart {
    function Error(): UnitError {
      match this
      case SymbolPart => InvalidSymbol
      case TacticalPart => InvalidTacticalName
    }
  }

  predicate SymbolChar(c: char) {
    'a' <= c <= 'z' || '0' <= c <= '9' || c == '-'
  }

  /** Whether a trimmed, non-empty part is allowed. */
  predicate ValidPart(kind: PartKind, s: string) {
    match kind
    case SymbolPart =>
      |s| <= MAX_SYMBOL_ID_LENGTH && forall i | 0 <= i < |s| :: SymbolChar(s[i])
    case TacticalPart =>
      |s| <= MAX_TACTICAL_NAME_PART_LENGTH && forall i | 0 <= i < |s| :: !IsControl(s[i])
  }

  function TrimAll(parts: Parts): (r: Parts)
    ensures |r| == |parts|
    ensures forall i | 0 <= i < |parts| :: r[i] == Trim(parts[i])
  {
    seq(|parts|, i requires 0 <= i < |parts| => Trim(parts[i]))
  }

  /** What normalizing a symbol or tactical name yields. */
  function PartsOf(kind: PartKind, parts: Option<Parts>): Result<Option<Parts>, UnitError> {
    if parts.None? then Success(None)
    else
      var trimmed := TrimAll(parts.value);
      if exists i | 0 <= i < |trimmed| :: trimmed[i] != "" && !ValidPart(kind, trimmed[i]) then Failure(kind.Error())
      else if forall i | 0 <= i < |trimmed| :: trimmed[i] == "" then Success(None)
      else Success(Some(trimmed))
  }

  /** normalizeSymbol and normalizeTacticalName */
  method NormalizeParts(kind: PartKind, parts: Option<Parts>) returns (r: Result<Option<Parts>, UnitError>)
    ensures r == PartsOf(kind, parts)
  {
    if parts.None? {
      return Success(None);
    }
    ghost var trimmed := TrimAll(parts.value);
    var out := parts.value;
    var empty := true;
    for i := 0 to |out|
      invariant |out| == |trimmed|
      invariant forall j | 0 <= j < |out| :: out[j] == if j < i then trimmed[j] else parts.value[j]
      invariant forall j | 0 <= j < i :: trimmed[j] == "" || ValidPart(kind, trimmed[j])
      invariant empty <==> forall j | 0 <= j < i :: trimmed[j] == ""
    {
      out := out[i := Trim(out[i])];
      if out[i] != "" {
        if !ValidPart(kind, out[i]) {
          return Failure(kind.Error());
        }
        empty := false;
      }
    }
    assert out == trimmed;
    r := if empty then Success(None) else Success(Some(out));
  }

  // ---------- Validation ----------

  predicate ValidCoordinate(v: Float, limit: real) {
    !v.NaN? && FloatGe(v, -limit) && FloatLe(v, limit)
  }

  predicate ValidNonNegative(v: Option<Float>) {
    v.None? || (FloatGe(v.value, 0.0) && v.value.Num?)
  }

  predicate ValidPosition(p: Position) {
    && ValidCoordinate(p.latitude, 90.0)
    && ValidCoordinate(p.longitude, 180.0)
    && (p.height.None? || p.height.value.Num?)
    && ValidNonNegative(p.accuracy)
    && ValidNonNegative(p.speed)
    && (p.course.None? || (FloatGe(p.course.value, 0.0) && FloatLe(p.course.value, 360.0)
        && p.course.value != Num(360.0)))
  }

  predicate Within(v: Float, low: real, high: real) {
    v.Num? && low <= v.v <= high
  }

  /** Valid positions, by the values: only finite ones, whatever the comparisons of
      infinities and NaN come to. */
  lemma ValidPositionsAre(p: Position)
    ensures ValidPosition(p) <==>
              && Within(p.latitude, -90.0, 90.0) && Within(p.longitude, -180.0, 180.0)
              && (p.height.Some? ==> p.height.value.Num?)
              && (p.accuracy.Some? ==> p.accuracy.value.Num? && p.accuracy.value.v >= 0.0)
              && (p.speed.Some? ==> p.speed.value.Num? && p.speed.value.v >= 0.0)
              && (p.course.Some? ==> p.course.value.Num? && 0.0 <= p.course.value.v < 360.0)
  {
  }

  function NameOf(name: string): Result<string, UnitError> {
    var trimmed := Trim(name);
    if trimmed == "" || |trimmed| > MAX_NAME_LENGTH then Failure(InvalidName) else Success(trimmed)
  }

  function PositionOf(position: Option<Position>): Result<Option<Position>, UnitError> {
    if position.None? then Success(None)
    else if !ValidPosition(position.value) then Failure(InvalidPosition)
    else Success(Some(position.value.(timestamp := position.value.timestamp.UTC())))
  }

  /** The fields a unit has after `input` is applied to it, or why it is refused. */
  function Applied(input: Input): Result<Input, UnitError> {
    match (NameOf(input.name), PartsOf(SymbolPart, input.symbol), PartsOf(TacticalPart, input.tacticalName),
        PositionOf(input.position))
    case (Failure(e), _, _, _) => Failure(e)
    case (_, Failure(e), _, _) => Failure(e)
    case (_, _, Failure(e), _) => Failure(e)
    case (_, _, _, Failure(e)) => Failure(e)
    case (Success(name), Success(symbol), Success(tacticalName), Success(position)) =>
      Success(Input(name, position, symbol, tacticalName))
  }

  /** apply: validates the fields one after the other, stopping at the first bad one. */
  method Apply(input: Input) returns (r: Result<Input, UnitError>)
    ensures r == Applied(input)
  {
    var name := Trim(input.name);
    if name == "" || |name| > MAX_NAME_LENGTH {
      return Failure(InvalidName);
    }
    var symbol := NormalizeParts(SymbolPart, input.symbol);
    if symbol.Failure? {
      return Failure(symbol.error);
    }
    var tacticalName := NormalizeParts(TacticalPart, input.tacticalName);
    if tacticalName.Failure? {
      return Failure(tacticalName.error);
    }
    if input.position.None? {
      return Success(Input(name, None, symbol.value, tacticalName.value));
    }
    var p := input.position.value;
    if !ValidPosition(p) {
      return Failure(InvalidPosition);
    }
    var stored := p.(timestamp := p.timestamp.UTC());
    r := Success(Input(name, Some(stored), symbol.value, tacticalName.value));
  }

  // ---------- Normal form ----------

  predicate NormalParts(kind: PartKind, parts: Option<Parts>) {
    parts.Some? ==>
      var p := parts.value;
      && (forall i | 0 <= i < |p| :: Trimmed(p[i]) && (p[i] == "" || ValidPart(kind, p[i])))
      && exists i | 0 <= i < |p| :: p[i] != ""
  }

  /** The form every stored unit is in. */
  predicate Normal(f: Input) {
    && f.name != "" && |f.name| <= MAX_NAME_LENGTH && Trimmed(f.name)
    && NormalParts(SymbolPart, f.symbol)
    && NormalParts(TacticalPart, f.tacticalName)
    && (f.position.Some? ==> ValidPosition(f.position.value) && f.position.value.timestamp.zone == 0)
  }

  lemma PartsOfNormal(kind: PartKind, parts: Option<Parts>)
    ensures PartsOf(kind, parts).Success? ==> NormalParts(kind, PartsOf(kind, parts).value)
    ensures NormalParts(kind, parts) <==> PartsOf(kind, parts) == Success(parts)
  {
    if parts.Some? {
      var trimmed := TrimAll(parts.value);
      forall i | 0 <= i < |trimmed| ensures Trimmed(trimmed[i]) {
        var _, _ := TrimCuts(parts.value[i]);
      }
      forall i | 0 <= i < |trimmed| ensures trimmed[i] == parts.value[i] <==> Trimmed(parts.value[i]) {
        TrimFixedPoints(parts.value[i]);
      }
      if NormalParts(kind, parts) {
        assert trimmed == parts.value;
      }
    }
  }

  /** Applying an input always yields a normal form, and the normal forms are
      exactly the inputs that applying leaves alone. */
  lemma NormalForms(f: Input)
    ensures Applied(f).Success? ==> Normal(Applied(f).value)
    ensures Normal(f) <==> Applied(f) == Success(f)
  {
    TrimFixedPoints(f.name);
    var _, _ := TrimCuts(f.name);
    PartsOfNormal(SymbolPart, f.symbol);
    PartsOfNormal(TacticalPart, f.tacticalName);
  }

  // ---------- What applying does, field by field ----------

  predicate NameOk(name: string) {
    1 <= |Trim(name)| <= MAX_NAME_LENGTH
  }

  /** Every part is, without white space around it, empty or allowed. */
  predicate PartsOk(kind: PartKind, parts: Option<Parts>) {
    parts.Some? ==> forall i | 0 <= i < |parts.value| ::
      Trim(parts.value[i]) == "" || ValidPart(kind, Trim(parts.value[i]))
  }

  predicate PositionOk(position: Option<Position>) {
    position.Some? ==> ValidPosition(position.value)
  }

  /** Nothing is stored for parts that are all empty; others are stored trimmed. */
  predicate PartsStored(parts: Option<Parts>, stored: Option<Parts>) {
    if parts.None? || forall i | 0 <= i < |parts.value| :: Trim(parts.value[i]) == "" then stored.None?
    else
      && stored.Some? && |stored.value| == |parts.value|
      && forall i | 0 <= i < |parts.value| :: stored.value[i] == Trim(parts.value[i])
  }

  /** A position is stored as it is, at the same instant, in UTC. */
  predicate PositionStored(position: Option<Position>, stored: Option<Position>) {
    match (position, stored)
    case (None, None) => true
    case (Some(p), Some(q)) =>
      q.timestamp.Equal(p.timestamp) && q.timestamp.zone == 0 && q.(timestamp := p.timestamp) == p
    case _ => false
  }

  lemma PartsExactly(kind: PartKind, parts: Option<Parts>, stored: Option<Parts>)
    ensures PartsOf(kind, parts) == Success(stored) <==> PartsOk(kind, parts) && PartsStored(parts, stored)
    ensures PartsOf(kind, parts).Failure? <==> !PartsOk(kind, parts)
    ensures PartsOf(kind, parts).Failure? ==> PartsOf(kind, parts).error == kind.Error()
  {
    if parts.Some? {
      var trimmed := TrimAll(parts.value);
      if PartsOk(kind, parts) && PartsStored(parts, stored) && stored.Some? {
        assert stored.value == trimmed;
      }
      if i :| 0 <= i < |parts.value| && Trim(parts.value[i]) != "" && !ValidPart(kind, Trim(parts.value[i])) {
        assert trimmed[i] == Trim(parts.value[i]);
      }
    }
  }

  /** Applying, exactly: what is stored of each field, and which error is reported. */
  lemma AppliedExactly(input: Input, out: Input, e: UnitError)
    ensures Applied(input) == Success(out) <==>
              && NameOk(input.name) && out.name == Trim(input.name)
              && PartsOk(SymbolPart, input.symbol) && PartsStored(input.symbol, out.symbol)
              && PartsOk(TacticalPart, input.tacticalName) && PartsStored(input.tacticalName, out.tacticalName)
              && PositionOk(input.position) && PositionStored(input.position, out.position)
    ensures Applied(input) == Failure(e) <==>
              if !NameOk(input.name) then e == InvalidName
              else if !PartsOk(SymbolPart, input.symbol) then e == InvalidSymbol
              else if !PartsOk(TacticalPart, input.tacticalName) then e == InvalidTacticalName
              else e == InvalidPosition && !PositionOk(input.position)
  {
    PartsExactly(SymbolPart, input.symbol, out.symbol);
    PartsExactly(TacticalPart, input.tacticalName, out.tacticalName);
  }

  // ---------- Comparing units ----------

  predicate EqualPtr(a: Option<Float>, b: Option<Float>) {
    match (a, b)
    case (None, None) => true
    case (Some(x), Some(y)) => FloatEq(x, y)
    case _ => false
  }

  predicate SamePosition(a: Option<Position>, b: Option<Position>) {
    match (a, b)
    case (None, None) => true
    case (Some(p), Some(q)) =>
      && FloatEq(p.latitude, q.latitude) && FloatEq(p.longitude, q.longitude)
      && EqualPtr(p.height, q.height) && EqualPtr(p.accuracy, q.accuracy)
      && EqualPtr(p.speed, q.speed) && EqualPtr(p.course, q.course)
      && p.timestamp.Equal(q.timestamp)
    case _ => false
  }

  datatype Field = FieldName | FieldPosition | FieldSymbol | FieldTacticalName

  /** Which fields an edit from `a` to `b` touches, in a fixed order. */
  function Changed(a: Input, b: Input): seq<Field> {
    (if a.name != b.name then [FieldName] else [])
    + (if !SamePosition(a.position, b.position) then [FieldPosition] else [])
    + (if a.symbol != b.symbol then [FieldSymbol] else [])
    + (if a.tacticalName != b.tacticalName then [FieldTacticalName] else [])
  }

  /** On stored units the comparisons are equality: no NaN is unequal to itself
      and no two times differ only in their location. */
  lemma SameIsEqual(a: Input, b: Input)
    requires Normal(a) && Normal(b)
    ensures SamePosition(a.position, b.position) <==> a.position == b.position
    ensures Changed(a, b) == [] <==> a == b
  {
  }

  predicate Differs(field: Field, a: Input, b: Input) {
    match field
    case FieldName => a.name != b.name
    case FieldPosition => a.position != b.position
    case FieldSymbol => a.symbol != b.symbol
    case FieldTacticalName => a.tacticalName != b.tacticalName
  }

  /** Between stored units exactly the fields that differ are named. */
  lemma ChangedExactly(a: Input, b: Input, field: Field)
    requires Normal(a) && Normal(b)
    ensures field in Changed(a, b) <==> Differs(field, a, b)
  {
    SameIsEqual(a, b);
  }

  /** Without that normal form the comparison is not even reflexive. */
  lemma SamePositionOfNaN()
    ensures exists p: Position :: !SamePosition(Some(p), Some(p))
  {
    var p := Position(NaN, Num(0.0), None, None, None, None, Time(0, 0));
    assert !SamePosition(Some(p), Some(p));
  }

  // ---------- Partial updates ----------

  /** The fields an operation overwrites, each with its new value. */
  datatype Edit = Edit(
    name: Option<string>, position: Option<Option<Position>>,
    symbol: Option<Option<Parts>>, tacticalName: Option<Option<Parts>>)

  function GetOr<T>(o: Option<T>, default: T): T {
    if o.Some? then o.value else default
  }

  /** The function an operation hands to Patch: overwrite the named fields. */
  function Overwrite(e: Edit): Input -> Input {
    (cur: Input) => Input(
      GetOr(e.name, cur.name), GetOr(e.position, cur.position),
      GetOr(e.symbol, cur.symbol), GetOr(e.tacticalName, cur.tacticalName))
  }

  /** A patch request: absent fields are None; a present null clears. */
  datatype PatchRequest = PatchRequest(
    name: Option<Option<string>>,
    symbol: Option<Option<Parts>>,
    tacticalName: Option<Option<Parts>>)

  /** unitPatchRequest.patch: a null name is refused. */
  function PatchOf(req: PatchRequest): Result<Edit, UnitError> {
    match req.name
    case Some(None) => Failure(InvalidName)
    case Some(Some(name)) => Success(Edit(Some(name), None, req.symbol, req.tacticalName))
    case None => Success(Edit(None, None, req.symbol, req.tacticalName))
  }

  function SetPositionTo(p: Option<Position>): Edit {
    Edit(None, Some(p), None, None)
  }

  /** Update's function: take the input but keep the position. */
  function UpdateTo(input: Input): Edit {
    Edit(Some(input.name), None, Some(input.symbol), Some(input.tacticalName))
  }

  predicate Disjoint(p: Edit, q: Edit) {
    && (p.name.None? || q.name.None?)
    && (p.position.None? || q.position.None?)
    && (p.symbol.None? || q.symbol.None?)
    && (p.tacticalName.None? || q.tacticalName.None?)
  }

  /** One edit after another, each validated. */
  function Both(f: Input, first: Edit, second: Edit): Result<Input, UnitError> {
    match Applied(Overwrite(first)(f))
    case Failure(e) => Failure(e)
    case Success(g) => Applied(Overwrite(second)(g))
  }

  /** Whether applying `input` yields `out`, field by field. */
  predicate Fieldwise(input: Input, out: Input) {
    && NameOf(input.name) == Success(out.name)
    && PositionOf(input.position) == Success(out.position)
    && PartsOf(SymbolPart, input.symbol) == Success(out.symbol)
    && PartsOf(TacticalPart, input.tacticalName) == Success(out.tacticalName)
  }

  lemma AppliedFieldwise(input: Input, out: Input)
    ensures Applied(input) == Success(out) <==> Fieldwise(input, out)
  {
  }

  lemma NormalFieldwise(f: Input)
    requires Normal(f)
    ensures Fieldwise(f, f)
  {
    NormalForms(f);
    AppliedFieldwise(f, f);
  }

  /** One field under two edits, at most one of which overwrites it. */
  lemma FieldCommutes<T>(n: T -> Result<T, UnitError>, f: T, p: Option<T>, q: Option<T>, g: T, out: T) returns (h: T)
    requires p.None? || q.None?
    requires n(f) == Success(f) && n(g) == Success(g) && n(out) == Success(out)
    requires n(GetOr(p, f)) == Success(g) && n(GetOr(q, g)) == Success(out)
    ensures n(GetOr(q, f)) == Success(h) && n(GetOr(p, h)) == Success(out)
  {
    h := if q.Some? then out else f;
  }

  lemma EditsCommuteOneWay(f: Input, p: Edit, q: Edit, g: Input, out: Input) returns (h: Input)
    requires Disjoint(p, q) && Fieldwise(f, f) && Fieldwise(g, g) && Fieldwise(out, out)
    requires Fieldwise(Overwrite(p)(f), g) && Fieldwise(Overwrite(q)(g), out)
    ensures Fieldwise(Overwrite(q)(f), h) && Fieldwise(Overwrite(p)(h), out)
  {
    var name := FieldCommutes(NameOf, f.name, p.name, q.name, g.name, out.name);
    var position := FieldCommutes(PositionOf, f.position, p.position, q.position, g.position, out.position);
    var symbol := FieldCommutes(s => PartsOf(SymbolPart, s), f.symbol, p.symbol, q.symbol, g.symbol, out.symbol);
    var tacticalName := FieldCommutes(s => PartsOf(TacticalPart, s), f.tacticalName, p.tacticalName, q.tacticalName,
        g.tacticalName, out.tacticalName);
    h := Input(name, position, symbol, tacticalName);
  }

  lemma BothCommutesOneWay(f: Input, p: Edit, q: Edit)
    requires Normal(f) && Disjoint(p, q) && Both(f, p, q).Success?
    ensures Both(f, q, p) == Both(f, p, q)
  {
    var g, out := Applied(Overwrite(p)(f)).value, Both(f, p, q).value;
    NormalForms(Overwrite(p)(f));
    NormalForms(Overwrite(q)(g));
    NormalFieldwise(f);
    NormalFieldwise(g);
    NormalFieldwise(out);
    AppliedFieldwise(Overwrite(p)(f), g);
    AppliedFieldwise(Overwrite(q)(g), out);
    var h := EditsCommuteOneWay(f, p, q, g, out);
    AppliedFieldwise(Overwrite(q)(f), h);
    AppliedFieldwise(Overwrite(p)(h), out);
  }

  /** Edits of disjoint fields commute: one order succeeds exactly if the other
      does, and to the same unit. */
  lemma EditsCommute(f: Input, p: Edit, q: Edit)
    requires Normal(f) && Disjoint(p, q)
    ensures Both(f, p, q).Success? <==> Both(f, q, p).Success?
    ensures Both(f, p, q).Success? ==> Both(f, p, q) == Both(f, q, p)
  {
    if Both(f, p, q).Success? {
      BothCommutesOneWay(f, p, q);
    }
    if Both(f, q, p).Success? {
      BothCommutesOneWay(f, q, p);
    }
  }

  /** In particular a patch request commutes with setting the position. */
  lemma PatchCommutesWithPosition(f: Input, req: PatchRequest, p: Option<Position>)
    requires Normal(f) && PatchOf(req).Success?
    ensures Both(f, PatchOf(req).value, SetPositionTo(p)).Success? <==>
        Both(f, SetPositionTo(p), PatchOf(req).value).Success?
    ensures Both(f, PatchOf(req).value, SetPositionTo(p)).Success? ==>
              Both(f, PatchOf(req).value, SetPositionTo(p)) == Both(f, SetPositionTo(p), PatchOf(req).value)
  {
    EditsCommute(f, PatchOf(req).value, SetPositionTo(p));
  }

  /** A patch request overwrites exactly the fields it names and leaves the others;
      a null name is refused. */
  lemma PatchOverwrites(req: PatchRequest, f: Input, g: Input)
    requires Normal(f)
    ensures PatchOf(req).Failure? <==> req.name == Some(None)
    ensures PatchOf(req).Failure? ==> PatchOf(req).error == InvalidName
    ensures PatchOf(req).Success? ==>
              (Applied(Overwrite(PatchOf(req).value)(f)) == Success(g) <==>
                && (if req.name.Some? then NameOf(req.name.value.value) == Success(g.name) else g.name == f.name)
                && (if req.symbol.Some? then PartsOf(SymbolPart, req.symbol.value) == Success(g.symbol)
                    else g.symbol == f.symbol)
                && (if req.tacticalName.Some?
                    then PartsOf(TacticalPart, req.tacticalName.value) == Success(g.tacticalName)
                    else g.tacticalName == f.tacticalName)
                && g.position == f.position)
  {
    NormalFieldwise(f);
    if PatchOf(req).Success? {
      AppliedFieldwise(Overwrite(PatchOf(req).value)(f), g);
    }
  }

  /** An update overwrites every field but the position. */
  lemma UpdateOverwrites(input: Input, f: Input, g: Input)
    requires Normal(f)
    ensures Applied(Overwrite(UpdateTo(input))(f)) == Success(g) <==>
              && NameOf(input.name) == Success(g.name) && g.position == f.position
              && PartsOf(SymbolPart, input.symbol) == Success(g.symbol)
              && PartsOf(TacticalPart, input.tacticalName) == Success(g.tacticalName)
  {
    NormalFieldwise(f);
    AppliedFieldwise(Overwrite(UpdateTo(input))(f), g);
  }

  /** Setting the position overwrites the position alone. */
  lemma SetPositionOverwrites(p: Option<Position>, f: Input, g: Input)
    requires Normal(f)
    ensures Applied(Overwrite(SetPositionTo(p))(f)) == Success(g) <==>
        PositionOf(p) == Success(g.position) && g == f.(position := g.position)
  {
    NormalFieldwise(f);
    AppliedFieldwise(Overwrite(SetPositionTo(p))(f), g);
  }

  /** An update leaves the position alone, whatever position its input carries. */
  lemma UpdateKeepsPosition(f: Input, input: Input)
    requires Normal(f) && Applied(Overwrite(UpdateTo(input))(f)).Success?
    ensures Applied(Overwrite(UpdateTo(input))(f)).value.position == f.position
  {
    NormalForms(f);
    AppliedFieldwise(f, f);
  }

  // ---------- The wire ----------

  datatype RemotePosition = RemotePosition(
    lat: Float, lon: Float, height: Option<Float>, accuracy: Option<Float>,
    speed: Option<Float>, course: Option<Float>, timestamp: Option<Time>)

  /** A unit as an instance's API serves it. */
  datatype RemoteUnit = RemoteUnit(
    id: nat, name: string, position: Option<RemotePosition>,
    symbol: Option<Parts>, tacticalName: Option<Parts>)
  {
    /** RemoteUnit.Input in the source: a position without a timestamp is dropped. */
    function ToInput(): Input {
      Input(
        name,
        if position.Some? && position.value.timestamp.Some? then
          var p := position.value;
          Some(Position(p.lat, p.lon, p.height, p.accuracy, p.speed, p.course, p.timestamp.value))
        else None,
        symbol, tacticalName)
    }
  }

  /** toUnitResponse, as far as it is mirrored. */
  function Response(id: nat, f: Input): RemoteUnit {
    RemoteUnit(
      id, f.name,
      if f.position.Some? then
        var p := f.position.value;
        Some(RemotePosition(p.latitude, p.longitude, p.height, p.accuracy, p.speed, p.course, Some(p.timestamp)))
      else None,
      f.symbol, f.tacticalName)
  }

  /** Mirroring what was served and serving it again gives the same, except that a
      position without a timestamp is not mirrored. */
  lemma ServedAgainIff(u: RemoteUnit)
    ensures Response(u.id, u.ToInput()) == u <==> (u.position.Some? ==> u.position.value.timestamp.Some?)
    ensures u.position.Some? && u.position.value.timestamp.None? ==>
        Response(u.id, u.ToInput()) == u.(position := None)
  {
  }

  /** Serving a stored unit and mirroring what was served reproduces it exactly. */
  lemma MirrorReproduces(id: nat, f: Input)
    requires Normal(f)
    ensures Applied(Response(id, f).ToInput()) == Success(f)
  {
    NormalForms(f);
    assert Response(id, f).ToInput() == f;
  }
}
