/**
  The option handling that the two geo_point field mappers share: reading the
  mapping options of a field (the type parser's loop over the mapping node),
  building the field's lat, lon and geohash sub-mappers, comparing two field
  types when a mapping is updated, writing the options back out, and indexing
  a geohash together with its prefixes.

  A mapping node is a sequence of entries in the map's iteration order, each
  key already in its underscore form. A node value is a boolean, a number (an
  Integer, a wider integer or a double, as the JSON parser hands them over) or
  a text; how a text reads as a boolean, an integer or a number of geohash
  levels is given by a TextReading, since those conversions are not part of
  this model.
*/
module GeoPointMapper {

  import opened Wrappers

  // ---------------------------------------------------------------------
  // Constants
  // ---------------------------------------------------------------------

  /** Version ids: indices created before 2.0.0-beta1 and before 2.0.0 accept older options. */
  const V2_0_0_Beta1: int := 2000001
  const V2_0_0: int := 2000099

  /** Java's int: the precisions and precision steps are ints. */
  type Int32 = x: int | -0x8000_0000 <= x < 0x8000_0000

  /** The default geohash precision: the length of the longest geohash. */
  const DefaultGeoHashPrecision: Int32 := 12

  /** The default numeric precision step, which a double sub-field also gets when none is set. */
  const DefaultPrecisionStep: Int32 := 16

  // ---------------------------------------------------------------------
  // Mapping nodes
  // ---------------------------------------------------------------------

  datatype PathType = Full | JustName

  /** The name a path type is written with: its constant name in lower case. */
  function PathTypeName(p: PathType): string {
    match p
    case Full => "full"
    case JustName => "just_name"
  }

  /** A path type read back from its name; any other text is an error. */
  function ParsePathType(name: string, text: string): (r: Result<PathType>)
    ensures r.Success? <==> text == "full" || text == "just_name"
    ensures r.Success? ==> PathTypeName(r.value) == text
  {
    if text == "full" then Success(Full)
    else if text == "just_name" then Success(JustName)
    else Failure("wrong value for pathType [" + text + "] for object [" + name + "]")
  }

  lemma PathTypeRoundTrip(name: string, p: PathType)
    ensures ParsePathType(name, PathTypeName(p)) == Success(p)
  {
  }

  /**
    A value of the mapping node. A JSON number arrives as an Integer when it
    fits in 32 bits (IntValue), as a Long or BigInteger when it does not
    (LongValue), and as a Double when it has a fraction or an exponent
    (DoubleValue, with its toString text and its value with the fraction
    dropped).
  */
  datatype NodeValue =
    | BoolValue(b: bool)
    | IntValue(i: Int32)
    | LongValue(l: int)
    | DoubleValue(text: string, whole: int)
    | TextValue(s: string)

  /** How a text reads as a boolean, as an integer and as a number of geohash levels. */
  datatype TextReading = TextReading(
    boolean: string -> bool,
    integer: string -> Result<Int32>,
    levels: string -> Result<Int32>)

  function DigitChar(d: int): char
    requires 0 <= d < 10
  {
    "0123456789"[d]
  }

  /** The decimal text of a natural number. */
  function Decimal(n: nat): (s: string)
    ensures |s| >= 1
    decreases n
  {
    if n < 10 then [DigitChar(n)] else Decimal(n / 10) + [DigitChar(n % 10)]
  }

  /** toString of a node value. */
  function NodeText(v: NodeValue): string {
    match v
    case BoolValue(b) => if b then "true" else "false"
    case IntValue(i) => SignedDecimal(i)
    case LongValue(l) => SignedDecimal(l)
    case DoubleValue(t, _) => t
    case TextValue(s) => s
  }

  /** The decimal text of an integer, with a minus sign when it is negative. */
  function SignedDecimal(n: int): string {
    if n < 0 then "-" + Decimal(-n) else Decimal(n)
  }

  /** The narrowing cast (int) of an integer: its low 32 bits, read as a signed int. */
  function Low32(n: int): (r: Int32)
    ensures (r - n) % 0x1_0000_0000 == 0
    ensures -0x8000_0000 <= n < 0x8000_0000 ==> r == n
  {
    var m := n % 0x1_0000_0000;
    if m < 0x8000_0000 then m else m - 0x1_0000_0000
  }

  /** The cast (int) of a double's whole part: values beyond the int range stick at its ends. */
  function Saturate32(n: int): (r: Int32)
    ensures r == n <==> -0x8000_0000 <= n < 0x8000_0000
    ensures n < -0x8000_0000 ==> r == -0x8000_0000
    ensures n >= 0x8000_0000 ==> r == 0x7fff_ffff
  {
    if n < -0x8000_0000 then -0x8000_0000 else if n >= 0x8000_0000 then 0x7fff_ffff else n
  }

  predicate IsNumber(v: NodeValue) {
    v.IntValue? || v.LongValue? || v.DoubleValue?
  }

  /** Number.intValue() of a numeric node value. */
  function IntValueOf(v: NodeValue): Int32
    requires IsNumber(v)
  {
    match v
    case IntValue(i) => i
    case LongValue(l) => Low32(l)
    case DoubleValue(_, w) => Saturate32(w)
  }

  /** nodeBooleanValue: a boolean as it is, a number is true when its intValue() is non-zero, a text as it reads. */
  function NodeBoolean(v: NodeValue, tr: TextReading): bool {
    match v
    case BoolValue(b) => b
    case TextValue(s) => tr.boolean(s)
    case _ => IntValueOf(v) != 0
  }

  /** nodeIntegerValue: a number's intValue(), anything else by reading its text. */
  function NodeInteger(v: NodeValue, tr: TextReading): Result<Int32> {
    if IsNumber(v) then Success(IntValueOf(v)) else tr.integer(NodeText(v))
  }

  /**
    geohash_precision: an Integer is a number of levels; anything else, a Long
    or a Double included, is a distance whose text is read as levels.
  */
  function GeohashLevels(v: NodeValue, tr: TextReading): Result<Int32> {
    if v.IntValue? then Success(v.i) else tr.levels(NodeText(v))
  }

  /**
    A number is true exactly when its intValue() is non-zero: an Integer when
    it is non-zero, a wider integer when its low 32 bits are, and a double
    when its whole part is, so 4294967296 and 0.5 both read as false.
  */
  lemma NumberTruth(v: NodeValue, tr: TextReading)
    requires IsNumber(v)
    ensures v.IntValue? ==> (NodeBoolean(v, tr) <==> v.i != 0)
    ensures v.LongValue? ==> (NodeBoolean(v, tr) <==> v.l % 0x1_0000_0000 != 0)
    ensures v.DoubleValue? ==> (NodeBoolean(v, tr) <==> v.whole != 0)
  {
  }

  /**
    An integer too wide for an int reads, as precision_step, as its low 32
    bits, and a double as its whole part clamped to the int range; an Integer
    reads as itself.
  */
  lemma NumberAsInteger(v: NodeValue, tr: TextReading)
    requires IsNumber(v)
    ensures NodeInteger(v, tr).Success?
    ensures v.IntValue? ==> NodeInteger(v, tr).value == v.i
    ensures v.LongValue? ==> (NodeInteger(v, tr).value - v.l) % 0x1_0000_0000 == 0
    ensures v.DoubleValue? && -0x8000_0000 <= v.whole < 0x8000_0000 ==> NodeInteger(v, tr).value == v.whole
  {
  }

  /** Only an Integer is taken as a number of levels; every other value goes through the distance reading. */
  lemma LevelsOnlyFromIntegers(v: NodeValue, tr: TextReading)
    ensures v.IntValue? ==> GeohashLevels(v, tr) == Success(v.i)
    ensures v.LongValue? ==> GeohashLevels(v, tr) == tr.levels(SignedDecimal(v.l))
    ensures v.DoubleValue? ==> GeohashLevels(v, tr) == tr.levels(v.text)
  {
  }

  datatype Entry = Entry(key: string, value: NodeValue)

  // ---------------------------------------------------------------------
  // The type parser's option loop
  // ---------------------------------------------------------------------

  /** The options a builder collects. */
  datatype Options = Options(
    pathType: PathType,
    enableLatLon: bool,
    precisionStep: Option<Int32>,
    enableGeoHash: bool,
    enableGeohashPrefix: bool,
    geoHashPrecision: Int32)

  const DefaultOptions: Options := Options(Full, false, None, false, false, DefaultGeoHashPrecision)

  /** The keys the option loop consumes; "path" only on indices created before 2.0.0-beta1. */
  predicate IsOptionKey(key: string, version: int) {
    || key == "lat_lon" || key == "precision_step" || key == "geohash"
    || key == "geohash_prefix" || key == "geohash_precision"
    || (key == "path" && version < V2_0_0_Beta1)
  }

  /** The value of an option entry cannot be read: the parse throws. */
  predicate BadValue(name: string, e: Entry, version: int, tr: TextReading) {
    || (e.key == "precision_step" && NodeInteger(e.value, tr).Failure?)
    || (e.key == "path" && version < V2_0_0_Beta1 && ParsePathType(name, NodeText(e.value)).Failure?)
    || (e.key == "geohash_precision" && GeohashLevels(e.value, tr).Failure?)
  }

  /** One option entry applied to the options collected so far. */
  function ApplyOption(o: Options, name: string, e: Entry, version: int, tr: TextReading): (r: Result<Options>)
    requires IsOptionKey(e.key, version)
    ensures r.Failure? <==> BadValue(name, e, version, tr)
  {
    if e.key == "lat_lon" then Success(o.(enableLatLon := NodeBoolean(e.value, tr)))
    else if e.key == "precision_step" then
      (match NodeInteger(e.value, tr)
       case Failure(m) => Failure(m)
       case Success(n) => Success(o.(precisionStep := Some(n))))
    else if e.key == "path" then
      (match ParsePathType(name, NodeText(e.value))
       case Failure(m) => Failure(m)
       case Success(p) => Success(o.(pathType := p)))
    else if e.key == "geohash" then Success(o.(enableGeoHash := NodeBoolean(e.value, tr)))
    else if e.key == "geohash_prefix" then
      var b := NodeBoolean(e.value, tr);
      Success(o.(enableGeohashPrefix := b, enableGeoHash := if b then true else o.enableGeoHash))
    else
      (match GeohashLevels(e.value, tr)
       case Failure(m) => Failure(m)
       case Success(n) => Success(o.(geoHashPrecision := n)))
  }

  /** The options read so far and the entries left in the node. */
  datatype Parsed = Parsed(options: Options, remaining: seq<Entry>)

  /** One iteration of the loop: an option is applied and removed, a multi-field key removed, any other entry kept. */
  function ParseStep(r: Result<Parsed>, name: string, e: Entry, version: int, multiFieldKeys: set<string>, tr: TextReading): Result<Parsed> {
    match r
    case Failure(m) => Failure(m)
    case Success(p) =>
      if IsOptionKey(e.key, version) then
        (match ApplyOption(p.options, name, e, version, tr)
         case Failure(m) => Failure(m)
         case Success(o) => Success(Parsed(o, p.remaining)))
      else if e.key in multiFieldKeys then Success(p)
      else Success(Parsed(p.options, p.remaining + [e]))
  }

  /** The loop over a whole node, starting from the default options. */
  function ParseOptions(name: string, node: seq<Entry>, version: int, multiFieldKeys: set<string>, tr: TextReading): Result<Parsed>
    decreases |node|
  {
    if node == [] then Success(Parsed(DefaultOptions, []))
    else ParseStep(ParseOptions(name, node[..|node| - 1], version, multiFieldKeys, tr), name, node[|node| - 1], version, multiFieldKeys, tr)
  }

  /** The entries that neither the option loop nor the multi-field parser claims, in node order. */
  function Unclaimed(node: seq<Entry>, version: int, multiFieldKeys: set<string>): seq<Entry>
    decreases |node|
  {
    if node == [] then []
    else
      var e := node[|node| - 1];
      Unclaimed(node[..|node| - 1], version, multiFieldKeys) +
        if IsOptionKey(e.key, version) || e.key in multiFieldKeys then [] else [e]
  }

  /**
    The loop fails exactly when some option entry cannot be read, and
    otherwise leaves exactly the unclaimed entries, in order.
  */
  lemma {:induction false} ParseOptionsOutcome(name: string, node: seq<Entry>, version: int, multiFieldKeys: set<string>, tr: TextReading)
    ensures ParseOptions(name, node, version, multiFieldKeys, tr).Success? <==>
      forall e :: e in node ==> !BadValue(name, e, version, tr)
    ensures ParseOptions(name, node, version, multiFieldKeys, tr).Success? ==>
      ParseOptions(name, node, version, multiFieldKeys, tr).value.remaining == Unclaimed(node, version, multiFieldKeys)
    decreases |node|
  {
    if node != [] {
      var init := node[..|node| - 1];
      ParseOptionsOutcome(name, init, version, multiFieldKeys, tr);
      assert node == init + [node[|node| - 1]];
    }
  }

  /** The unclaimed entries: no option, no multi-field key, and every other entry of the node. */
  lemma {:induction false} UnclaimedMembers(node: seq<Entry>, version: int, multiFieldKeys: set<string>, e: Entry)
    ensures e in Unclaimed(node, version, multiFieldKeys) <==>
      e in node && !IsOptionKey(e.key, version) && e.key !in multiFieldKeys
    decreases |node|
  {
    if node != [] {
      var init := node[..|node| - 1];
      UnclaimedMembers(init, version, multiFieldKeys, e);
      assert node == init + [node[|node| - 1]];
    }
  }

  /** The last value a node gives `key`, if any. */
  function LastValue(node: seq<Entry>, key: string): Option<NodeValue>
    decreases |node|
  {
    if node == [] then None
    else if node[|node| - 1].key == key then Some(node[|node| - 1].value)
    else LastValue(node[..|node| - 1], key)
  }

  /**
    lat_lon and geohash_prefix take the value of their last entry; a
    geohash_prefix entry that reads true also enables geohash, so once the
    loop ends with prefixes enabled, geohash is enabled too.
  */
  lemma {:induction false} LastOptionWins(name: string, node: seq<Entry>, version: int, multiFieldKeys: set<string>, tr: TextReading)
    requires ParseOptions(name, node, version, multiFieldKeys, tr).Success?
    ensures var o := ParseOptions(name, node, version, multiFieldKeys, tr).value.options;
      && o.enableLatLon == (LastValue(node, "lat_lon").Some? && NodeBoolean(LastValue(node, "lat_lon").value, tr))
      && o.enableGeohashPrefix == (LastValue(node, "geohash_prefix").Some? && NodeBoolean(LastValue(node, "geohash_prefix").value, tr))
    decreases |node|
  {
    if node != [] {
      var init := node[..|node| - 1];
      LastOptionWins(name, init, version, multiFieldKeys, tr);
    }
  }

  /** A geohash_prefix entry that reads true enables geohash; one that reads false leaves geohash as it was. */
  lemma PrefixEnablesGeohash(o: Options, name: string, v: NodeValue, version: int, tr: TextReading)
    ensures ApplyOption(o, name, Entry("geohash_prefix", v), version, tr).Success?
    ensures var r := ApplyOption(o, name, Entry("geohash_prefix", v), version, tr).value;
      && r.enableGeohashPrefix == NodeBoolean(v, tr)
      && r.enableGeoHash == (NodeBoolean(v, tr) || o.enableGeoHash)
      && r.(enableGeohashPrefix := o.enableGeohashPrefix, enableGeoHash := o.enableGeoHash) == o
  {
  }

  // ---------------------------------------------------------------------
  // Field types
  // ---------------------------------------------------------------------

  /** The field type of a double sub-field: its precision step, whether it is stored, whether it has doc values. */
  datatype NumberType = NumberType(precisionStep: Int32, stored: bool, hasDocValues: bool)

  /** The field type of the geohash sub-field: indexed as a single token without norms. */
  datatype StringType = StringType(tokenized: bool, omitNorms: bool)

  const GeohashType: StringType := StringType(false, true)

  /** A snapshot of a geo_point field type. */
  datatype FieldTypeState = FieldTypeState(
    latType: Option<NumberType>,
    lonType: Option<NumberType>,
    geohashType: Option<StringType>,
    geohashPrecision: Int32,
    geohashPrefixEnabled: bool,
    ignoreMalformed: bool,
    coerce: bool,
    stored: bool,
    hasDocValues: bool)

  /** A new field type: no sub-field types and every flag at its zero value. */
  function FreshState(stored: bool, hasDocValues: bool): FieldTypeState {
    FieldTypeState(None, None, None, 0, false, false, false, stored, hasDocValues)
  }

  /** isLatLonEnabled: the lat field type is set. */
  predicate LatLonEnabled(s: FieldTypeState) {
    s.latType.Some?
  }

  /** isGeohashEnabled: the geohash field type is set. */
  predicate GeohashEnabled(s: FieldTypeState) {
    s.geohashType.Some?
  }

  /** The field type of the lat and lon sub-fields a builder makes. */
  function LatLonType(o: Options, stored: bool): NumberType {
    NumberType(if o.precisionStep.Some? then o.precisionStep.value else DefaultPrecisionStep, stored, false)
  }

  /** What building the sub-mappers does to the field type. */
  function WithSubFields(s: FieldTypeState, o: Options): (r: FieldTypeState)
    ensures LatLonEnabled(r) <==> o.enableLatLon || LatLonEnabled(s)
    ensures GeohashEnabled(r) <==> o.enableGeoHash || o.enableGeohashPrefix || GeohashEnabled(s)
    ensures o.enableGeoHash || o.enableGeohashPrefix ==>
      r.geohashPrecision == o.geoHashPrecision && r.geohashPrefixEnabled == o.enableGeohashPrefix
    ensures o.enableLatLon ==> r.latType == r.lonType == Some(LatLonType(o, s.stored))
    ensures r.(latType := s.latType, lonType := s.lonType, geohashType := s.geohashType,
               geohashPrecision := s.geohashPrecision, geohashPrefixEnabled := s.geohashPrefixEnabled) == s
  {
    var withLatLon := if o.enableLatLon then s.(latType := Some(LatLonType(o, s.stored)), lonType := Some(LatLonType(o, s.stored))) else s;
    if o.enableGeoHash || o.enableGeohashPrefix then
      withLatLon.(geohashType := Some(GeohashType), geohashPrecision := o.geoHashPrecision, geohashPrefixEnabled := o.enableGeohashPrefix)
    else withLatLon
  }

  /** Built from a fresh field type, prefixes are enabled only together with geohash. */
  lemma PrefixOnlyWithGeohash(stored: bool, hasDocValues: bool, o: Options)
    ensures WithSubFields(FreshState(stored, hasDocValues), o).geohashPrefixEnabled ==>
      GeohashEnabled(WithSubFields(FreshState(stored, hasDocValues), o))
  {
  }

  class GeoPointFieldType {
    var latFieldType: Option<NumberType>
    var lonFieldType: Option<NumberType>
    var geohashFieldType: Option<StringType>
    var geohashPrecision: Int32
    var geohashPrefixEnabled: bool
    var ignoreMalformed: bool
    /** The legacy field type's coerce flag. */
    var coerce: bool
    var stored: bool
    var hasDocValues: bool

    constructor (stored: bool, hasDocValues: bool)
      ensures State() == FreshState(stored, hasDocValues)
    {
      latFieldType := None;
      lonFieldType := None;
      geohashFieldType := None;
      geohashPrecision := 0;
      geohashPrefixEnabled := false;
      ignoreMalformed := false;
      coerce := false;
      this.stored := stored;
      this.hasDocValues := hasDocValues;
    }

    function State(): FieldTypeState
      reads this
    {
      FieldTypeState(latFieldType, lonFieldType, geohashFieldType, geohashPrecision, geohashPrefixEnabled,
                     ignoreMalformed, coerce, stored, hasDocValues)
    }

    method SetGeohashEnabled(t: StringType, precision: Int32, prefixEnabled: bool)
      modifies this
      ensures State() == old(State()).(geohashType := Some(t), geohashPrecision := precision, geohashPrefixEnabled := prefixEnabled)
    {
      geohashFieldType := Some(t);
      geohashPrecision := precision;
      geohashPrefixEnabled := prefixEnabled;
    }

    method SetLatLonEnabled(lat: NumberType, lon: NumberType)
      modifies this
      ensures State() == old(State()).(latType := Some(lat), lonType := Some(lon))
    {
      latFieldType := Some(lat);
      lonFieldType := Some(lon);
    }

    method SetIgnoreMalformed(b: bool)
      modifies this
      ensures State() == old(State()).(ignoreMalformed := b)
    {
      ignoreMalformed := b;
    }

    method SetHasDocValues(b: bool)
      modifies this
      ensures State() == old(State()).(hasDocValues := b)
    {
      hasDocValues := b;
    }
  }

  // ---------------------------------------------------------------------
  // Compatibility of two field types
  // ---------------------------------------------------------------------

  /** The settings a mapping update may not change. */
  predicate Compatible(a: FieldTypeState, b: FieldTypeState) {
    && LatLonEnabled(a) == LatLonEnabled(b)
    && (LatLonEnabled(a) && LatLonEnabled(b) ==> a.latType.value.precisionStep == b.latType.value.precisionStep)
    && GeohashEnabled(a) == GeohashEnabled(b)
    && a.geohashPrecision == b.geohashPrecision
    && a.geohashPrefixEnabled == b.geohashPrefixEnabled
  }

  function Conflict(fullName: string, setting: string): string {
    "mapper [" + fullName + "] has different " + setting
  }

  function If(c: bool, s: string): seq<string> {
    if c then [s] else []
  }

  /** 1 for a setting that differs, 0 for one that does not. */
  function Differs(c: bool): nat {
    if c then 1 else 0
  }

  /**
    checkCompatibility: the conflicts found so far, then one message per
    differing setting, in the order lat_lon, precision_step, geohash,
    geohash_precision, geohash_prefix.
  */
  function CheckCompatibility(a: FieldTypeState, b: FieldTypeState, fullName: string, conflicts: seq<string>): (r: seq<string>)
    ensures |r| >= |conflicts| && r[..|conflicts|] == conflicts
    ensures r == conflicts <==> Compatible(a, b)
    ensures Conflict(fullName, "lat_lon") in r[|conflicts|..] <==> LatLonEnabled(a) != LatLonEnabled(b)
    ensures Conflict(fullName, "precision_step") in r[|conflicts|..] <==>
      LatLonEnabled(a) && LatLonEnabled(b) && a.latType.value.precisionStep != b.latType.value.precisionStep
    ensures Conflict(fullName, "geohash") in r[|conflicts|..] <==> GeohashEnabled(a) != GeohashEnabled(b)
    ensures Conflict(fullName, "geohash_precision") in r[|conflicts|..] <==> a.geohashPrecision != b.geohashPrecision
    ensures Conflict(fullName, "geohash_prefix") in r[|conflicts|..] <==> a.geohashPrefixEnabled != b.geohashPrefixEnabled
    ensures |r| - |conflicts| ==
      Differs(LatLonEnabled(a) != LatLonEnabled(b))
      + Differs(LatLonEnabled(a) && LatLonEnabled(b) && a.latType.value.precisionStep != b.latType.value.precisionStep)
      + Differs(GeohashEnabled(a) != GeohashEnabled(b)) + Differs(a.geohashPrecision != b.geohashPrecision)
      + Differs(a.geohashPrefixEnabled != b.geohashPrefixEnabled)
  {
    var latLon := LatLonEnabled(a) != LatLonEnabled(b);
    var step := LatLonEnabled(a) && LatLonEnabled(b) && a.latType.value.precisionStep != b.latType.value.precisionStep;
    var geohash := GeohashEnabled(a) != GeohashEnabled(b);
    var precision := a.geohashPrecision != b.geohashPrecision;
    var prefix := a.geohashPrefixEnabled != b.geohashPrefixEnabled;
    var added := If(latLon, Conflict(fullName, "lat_lon")) + If(step, Conflict(fullName, "precision_step"))
      + If(geohash, Conflict(fullName, "geohash")) + If(precision, Conflict(fullName, "geohash_precision"))
      + If(prefix, Conflict(fullName, "geohash_prefix"));
    ConflictsDiffer(fullName);
    Messages(latLon, step, geohash, precision, prefix,
             Conflict(fullName, "lat_lon"), Conflict(fullName, "precision_step"), Conflict(fullName, "geohash"),
             Conflict(fullName, "geohash_precision"), Conflict(fullName, "geohash_prefix"));
    assert (conflicts + added)[|conflicts|..] == added;
    conflicts + added
  }

  /**
    Five optional messages, all different: each message is present exactly
    when its condition holds, and there are as many as conditions that hold,
    so none is repeated.
  */
  lemma Messages(c1: bool, c2: bool, c3: bool, c4: bool, c5: bool,
                 m1: string, m2: string, m3: string, m4: string, m5: string)
    requires m1 != m2 && m1 != m3 && m1 != m4 && m1 != m5 && m2 != m3
    requires m2 != m4 && m2 != m5 && m3 != m4 && m3 != m5 && m4 != m5
    ensures var added := If(c1, m1) + If(c2, m2) + If(c3, m3) + If(c4, m4) + If(c5, m5);
      && (m1 in added <==> c1) && (m2 in added <==> c2) && (m3 in added <==> c3)
      && (m4 in added <==> c4) && (m5 in added <==> c5)
      && |added| == Differs(c1) + Differs(c2) + Differs(c3) + Differs(c4) + Differs(c5)
  {
    var added := If(c1, m1) + If(c2, m2) + If(c3, m3) + If(c4, m4) + If(c5, m5);
    assert forall x :: x in added <==>
      (c1 && x == m1) || (c2 && x == m2) || (c3 && x == m3) || (c4 && x == m4) || (c5 && x == m5);
  }

  /** Two messages that share a prefix differ when their endings differ in length or in the first character. */
  lemma EndingsDiffer(p: string, s: string, t: string)
    requires |s| != |t| || (|s| > 0 && |t| > 0 && s[0] != t[0])
    ensures p + s != p + t
  {
    if |s| == |t| {
      assert (p + s)[|p|] == s[0] && (p + t)[|p|] == t[0];
    }
  }

  /** The five conflict messages are different texts. */
  lemma ConflictsDiffer(fullName: string)
    ensures Conflict(fullName, "lat_lon") != Conflict(fullName, "precision_step")
    ensures Conflict(fullName, "lat_lon") != Conflict(fullName, "geohash")
    ensures Conflict(fullName, "lat_lon") != Conflict(fullName, "geohash_precision")
    ensures Conflict(fullName, "lat_lon") != Conflict(fullName, "geohash_prefix")
    ensures Conflict(fullName, "precision_step") != Conflict(fullName, "geohash")
    ensures Conflict(fullName, "precision_step") != Conflict(fullName, "geohash_precision")
    ensures Conflict(fullName, "precision_step") != Conflict(fullName, "geohash_prefix")
    ensures Conflict(fullName, "geohash") != Conflict(fullName, "geohash_precision")
    ensures Conflict(fullName, "geohash") != Conflict(fullName, "geohash_prefix")
    ensures Conflict(fullName, "geohash_precision") != Conflict(fullName, "geohash_prefix")
  {
    var p := "mapper [" + fullName + "] has different ";
    var settings := ["lat_lon", "precision_step", "geohash", "geohash_precision", "geohash_prefix"];
    forall i, j | 0 <= i < j < 5
      ensures Conflict(fullName, settings[i]) != Conflict(fullName, settings[j])
    {
      assert Conflict(fullName, settings[i]) == p + settings[i];
      assert Conflict(fullName, settings[j]) == p + settings[j];
      EndingsDiffer(p, settings[i], settings[j]);
    }
    assert settings[0] == "lat_lon" && settings[1] == "precision_step" && settings[2] == "geohash";
    assert settings[3] == "geohash_precision" && settings[4] == "geohash_prefix";
  }

  /** Compatibility does not depend on which side is the existing mapping. */
  lemma CompatibleSymmetric(a: FieldTypeState, b: FieldTypeState, fullName: string, conflicts: seq<string>)
    ensures CheckCompatibility(a, b, fullName, conflicts) == conflicts <==>
      CheckCompatibility(b, a, fullName, conflicts) == conflicts
  {
  }

  // ---------------------------------------------------------------------
  // Writing the options
  // ---------------------------------------------------------------------

  function Field(c: bool, key: string, v: NodeValue): seq<Entry> {
    if c then [Entry(key, v)] else []
  }

  /**
    doXContentBody: the options that differ from their defaults, or all of
    them when defaults are included; precision_step only with lat_lon and
    geohash_precision only with geohash.
  */
  function XContent(s: FieldTypeState, pathType: PathType, includeDefaults: bool): seq<Entry> {
    Field(includeDefaults || pathType != Full, "path", TextValue(PathTypeName(pathType)))
    + Field(includeDefaults || LatLonEnabled(s), "lat_lon", BoolValue(LatLonEnabled(s)))
    + Field(LatLonEnabled(s) && (includeDefaults || s.latType.value.precisionStep != DefaultPrecisionStep),
            "precision_step", IntValue(if LatLonEnabled(s) then s.latType.value.precisionStep else 0))
    + Field(includeDefaults || GeohashEnabled(s), "geohash", BoolValue(GeohashEnabled(s)))
    + Field(includeDefaults || s.geohashPrefixEnabled, "geohash_prefix", BoolValue(s.geohashPrefixEnabled))
    + Field(GeohashEnabled(s) && (includeDefaults || s.geohashPrecision != DefaultGeoHashPrecision),
            "geohash_precision", IntValue(s.geohashPrecision))
    + Field(includeDefaults || s.ignoreMalformed, "ignore_malformed", BoolValue(s.ignoreMalformed))
  }

  /** The keys of a written mapping, in order. */
  function Keys(x: seq<Entry>): (r: seq<string>)
    ensures |r| == |x| && forall i :: 0 <= i < |x| ==> r[i] == x[i].key
  {
    seq(|x|, i requires 0 <= i < |x| => x[i].key)
  }

  lemma KeysAppend(a: seq<Entry>, b: seq<Entry>)
    ensures Keys(a + b) == Keys(a) + Keys(b)
  {
    assert forall i :: 0 <= i < |a + b| ==> Keys(a + b)[i] == (Keys(a) + Keys(b))[i];
  }

  /** The keys of Field(c, key, v). */
  function KeyIf(c: bool, key: string): (r: seq<string>)
    ensures forall v :: Keys(Field(c, key, v)) == r
  {
    if c then [key] else []
  }

  /** Without defaults, a setting is written exactly when it differs from its default. */
  lemma XContentWritesChanges(s: FieldTypeState, pathType: PathType)
    ensures "lat_lon" in Keys(XContent(s, pathType, false)) <==> LatLonEnabled(s)
    ensures "path" in Keys(XContent(s, pathType, false)) <==> pathType != Full
    ensures "geohash_precision" in Keys(XContent(s, pathType, false)) <==>
      GeohashEnabled(s) && s.geohashPrecision != DefaultGeoHashPrecision
    ensures XContent(s, pathType, false) == [] <==>
      && pathType == Full && !LatLonEnabled(s) && !GeohashEnabled(s)
      && !s.geohashPrefixEnabled && !s.ignoreMalformed
  {
    XContentKeys(s, pathType);
    WrittenKeysHave(pathType != Full, LatLonEnabled(s),
                    LatLonEnabled(s) && s.latType.value.precisionStep != DefaultPrecisionStep,
                    GeohashEnabled(s), s.geohashPrefixEnabled,
                    GeohashEnabled(s) && s.geohashPrecision != DefaultGeoHashPrecision, s.ignoreMalformed);
  }

  /** The keys of the options written without defaults. */
  lemma XContentKeys(s: FieldTypeState, pathType: PathType)
    ensures Keys(XContent(s, pathType, false)) ==
      WrittenKeys(pathType != Full, LatLonEnabled(s),
                  LatLonEnabled(s) && s.latType.value.precisionStep != DefaultPrecisionStep,
                  GeohashEnabled(s), s.geohashPrefixEnabled,
                  GeohashEnabled(s) && s.geohashPrecision != DefaultGeoHashPrecision, s.ignoreMalformed)
  {
    var v1, v2 := TextValue(PathTypeName(pathType)), BoolValue(LatLonEnabled(s));
    var v3 := IntValue(if LatLonEnabled(s) then s.latType.value.precisionStep else 0);
    var v4, v5 := BoolValue(GeohashEnabled(s)), BoolValue(s.geohashPrefixEnabled);
    var v6, v7 := IntValue(s.geohashPrecision), BoolValue(s.ignoreMalformed);
    var x :=
      Field(pathType != Full, "path", v1) + Field(LatLonEnabled(s), "lat_lon", v2)
      + Field(LatLonEnabled(s) && s.latType.value.precisionStep != DefaultPrecisionStep, "precision_step", v3)
      + Field(GeohashEnabled(s), "geohash", v4) + Field(s.geohashPrefixEnabled, "geohash_prefix", v5)
      + Field(GeohashEnabled(s) && s.geohashPrecision != DefaultGeoHashPrecision, "geohash_precision", v6)
      + Field(s.ignoreMalformed, "ignore_malformed", v7);
    assert XContent(s, pathType, false) == x;
    FieldsKeys(pathType != Full, LatLonEnabled(s),
               LatLonEnabled(s) && s.latType.value.precisionStep != DefaultPrecisionStep,
               GeohashEnabled(s), s.geohashPrefixEnabled,
               GeohashEnabled(s) && s.geohashPrecision != DefaultGeoHashPrecision, s.ignoreMalformed,
               v1, v2, v3, v4, v5, v6, v7);
  }

  /** The keys of the seven fields doXContentBody may write. */
  lemma FieldsKeys(c1: bool, c2: bool, c3: bool, c4: bool, c5: bool, c6: bool, c7: bool,
                   v1: NodeValue, v2: NodeValue, v3: NodeValue, v4: NodeValue, v5: NodeValue,
                   v6: NodeValue, v7: NodeValue)
    ensures Keys(Field(c1, "path", v1) + Field(c2, "lat_lon", v2) + Field(c3, "precision_step", v3)
                 + Field(c4, "geohash", v4) + Field(c5, "geohash_prefix", v5)
                 + Field(c6, "geohash_precision", v6) + Field(c7, "ignore_malformed", v7))
            == WrittenKeys(c1, c2, c3, c4, c5, c6, c7)
  {
    var f1, f2, f3 := Field(c1, "path", v1), Field(c2, "lat_lon", v2), Field(c3, "precision_step", v3);
    var f4, f5 := Field(c4, "geohash", v4), Field(c5, "geohash_prefix", v5);
    var f6, f7 := Field(c6, "geohash_precision", v6), Field(c7, "ignore_malformed", v7);
    KeysAppend(f1, f2);
    KeysAppend(f1 + f2, f3);
    KeysAppend(f1 + f2 + f3, f4);
    KeysAppend(f1 + f2 + f3 + f4, f5);
    KeysAppend(f1 + f2 + f3 + f4 + f5, f6);
    KeysAppend(f1 + f2 + f3 + f4 + f5 + f6, f7);
  }

  /** The keys doXContentBody writes, given which of its seven fields are written. */
  function WrittenKeys(path: bool, latLon: bool, precisionStep: bool, geohash: bool, geohashPrefix: bool,
                       geohashPrecision: bool, ignoreMalformed: bool): seq<string>
  {
    KeyIf(path, "path") + KeyIf(latLon, "lat_lon") + KeyIf(precisionStep, "precision_step")
    + KeyIf(geohash, "geohash") + KeyIf(geohashPrefix, "geohash_prefix")
    + KeyIf(geohashPrecision, "geohash_precision") + KeyIf(ignoreMalformed, "ignore_malformed")
  }

  /** The seven keys are distinct, so a key is written exactly when its field is. */
  lemma WrittenKeysHave(path: bool, latLon: bool, precisionStep: bool, geohash: bool, geohashPrefix: bool,
                        geohashPrecision: bool, ignoreMalformed: bool)
    ensures var k := WrittenKeys(path, latLon, precisionStep, geohash, geohashPrefix, geohashPrecision, ignoreMalformed);
      && ("path" in k <==> path)
      && ("lat_lon" in k <==> latLon)
      && ("geohash_precision" in k <==> geohashPrecision)
  {
  }

  // ---------------------------------------------------------------------
  // The builder
  // ---------------------------------------------------------------------

  /** Where a sub-mapper was built: its name, the path type and the path elements in force. */
  datatype SubMapper = SubMapper(name: string, pathType: PathType, path: seq<string>)

  /** The path of the document object being mapped. */
  class ContentPath {
    var pathType: PathType
    var elements: seq<string>

    constructor (pathType: PathType, elements: seq<string>)
      ensures this.pathType == pathType && this.elements == elements
    {
      this.pathType := pathType;
      this.elements := elements;
    }
  }

  class GeoPointBuilder {
    const name: string
    const fieldType: GeoPointFieldType
    const defaultFieldType: GeoPointFieldType
    var pathType: PathType
    var enableLatLon: bool
    var precisionStep: Option<Int32>
    var enableGeoHash: bool
    var enableGeohashPrefix: bool
    var geoHashPrecision: Int32

    /** A builder with the default options; `stored` and `hasDocValues` are what the common field options left. */
    constructor (name: string, stored: bool, hasDocValues: bool)
      ensures this.name == name && CurrentOptions() == DefaultOptions
      ensures fresh(fieldType) && fresh(defaultFieldType) && fieldType != defaultFieldType
      ensures fieldType.State() == FreshState(stored, hasDocValues)
      ensures defaultFieldType.State() == FreshState(stored, hasDocValues)
    {
      this.name := name;
      fieldType := new GeoPointFieldType(stored, hasDocValues);
      defaultFieldType := new GeoPointFieldType(stored, hasDocValues);
      pathType := Full;
      enableLatLon := false;
      precisionStep := None;
      enableGeoHash := false;
      enableGeohashPrefix := false;
      geoHashPrecision := DefaultGeoHashPrecision;
    }

    function CurrentOptions(): Options
      reads this
    {
      Options(pathType, enableLatLon, precisionStep, enableGeoHash, enableGeohashPrefix, geoHashPrecision)
    }

    /**
      The option loop of the type parser: every entry is looked at in order;
      options are applied and removed, multi-field keys are handed to the
      multi-field parser and removed, and the rest stay. An option whose value
      cannot be read ends the parse with an error.
    */
    method ParseOptionEntries(node: seq<Entry>, version: int, multiFieldKeys: set<string>, tr: TextReading)
      returns (r: Result<seq<Entry>>)
      requires CurrentOptions() == DefaultOptions
      modifies this
      ensures r.Success? <==> ParseOptions(name, node, version, multiFieldKeys, tr).Success?
      ensures r.Success? ==> ParseOptions(name, node, version, multiFieldKeys, tr).value == Parsed(CurrentOptions(), r.value)
      ensures r.Failure? ==> r.error == ParseOptions(name, node, version, multiFieldKeys, tr).error
    {
      var remaining: seq<Entry> := [];
      var i := 0;
      while i < |node|
        invariant 0 <= i <= |node|
        invariant ParseOptions(name, node[..i], version, multiFieldKeys, tr) == Success(Parsed(CurrentOptions(), remaining))
      {
        var e := node[i];
        assert node[..i + 1][..i] == node[..i];
        if e.key == "lat_lon" {
          enableLatLon := NodeBoolean(e.value, tr);
        } else if e.key == "precision_step" {
          var n := NodeInteger(e.value, tr);
          if n.Failure? {
            FailureStays(name, node, i + 1, version, multiFieldKeys, tr);
            return Failure(n.error);
          }
          precisionStep := Some(n.value);
        } else if e.key == "path" && version < V2_0_0_Beta1 {
          var p := ParsePathType(name, NodeText(e.value));
          if p.Failure? {
            FailureStays(name, node, i + 1, version, multiFieldKeys, tr);
            return Failure(p.error);
          }
          pathType := p.value;
        } else if e.key == "geohash" {
          enableGeoHash := NodeBoolean(e.value, tr);
        } else if e.key == "geohash_prefix" {
          var b := NodeBoolean(e.value, tr);
          enableGeohashPrefix := b;
          if b {
            enableGeoHash := true;
          }
        } else if e.key == "geohash_precision" {
          var n := GeohashLevels(e.value, tr);
          if n.Failure? {
            FailureStays(name, node, i + 1, version, multiFieldKeys, tr);
            return Failure(n.error);
          }
          geoHashPrecision := n.value;
        } else if e.key in multiFieldKeys {
        } else {
          remaining := remaining + [e];
        }
        i := i + 1;
      }
      assert node[..i] == node;
      return Success(remaining);
    }

    /**
      The sub-mapper part of build: under the builder's path type and inside
      the field's own path, lat and lon sub-mappers are made when lat_lon is
      enabled and a geohash sub-mapper when geohash or geohash_prefix is; the
      field type records their field types. The context's path is restored.
    */
    method BuildSubMappers(context: ContentPath) returns (lat: Option<SubMapper>, lon: Option<SubMapper>, geohash: Option<SubMapper>)
      modifies context, fieldType
      ensures context.pathType == old(context.pathType) && context.elements == old(context.elements)
      ensures fieldType.State() == WithSubFields(old(fieldType.State()), CurrentOptions())
      ensures lat == (if enableLatLon then Some(SubMapper("lat", pathType, old(context.elements) + [name])) else None)
      ensures lon == (if enableLatLon then Some(SubMapper("lon", pathType, old(context.elements) + [name])) else None)
      ensures geohash ==
        (if enableGeoHash || enableGeohashPrefix then Some(SubMapper("geohash", pathType, old(context.elements) + [name])) else None)
    {
      var origPathType := context.pathType;
      var origElements := context.elements;
      context.pathType := pathType;
      context.elements := context.elements + [name];
      lat, lon, geohash := None, None, None;
      if enableLatLon {
        var t := LatLonType(CurrentOptions(), fieldType.stored);
        lat := Some(SubMapper("lat", context.pathType, context.elements));
        lon := Some(SubMapper("lon", context.pathType, context.elements));
        fieldType.SetLatLonEnabled(t, t);
      }
      if enableGeoHash || enableGeohashPrefix {
        geohash := Some(SubMapper("geohash", context.pathType, context.elements));
        fieldType.SetGeohashEnabled(GeohashType, geoHashPrecision, enableGeohashPrefix);
      }
      context.elements := origElements;
      context.pathType := origPathType;
    }
  }

  /** Once the loop has failed on a prefix of the node, it fails on the whole node with the same error. */
  lemma {:induction false} FailureStays(name: string, node: seq<Entry>, i: nat, version: int, multiFieldKeys: set<string>, tr: TextReading)
    requires i <= |node|
    requires ParseOptions(name, node[..i], version, multiFieldKeys, tr).Failure?
    ensures ParseOptions(name, node, version, multiFieldKeys, tr) == ParseOptions(name, node[..i], version, multiFieldKeys, tr)
    decreases |node| - i
  {
    if i < |node| {
      assert node[..i + 1][..i] == node[..i];
      FailureStays(name, node, i + 1, version, multiFieldKeys, tr);
    } else {
      assert node[..i] == node;
    }
  }

  // ---------------------------------------------------------------------
  // The mapper
  // ---------------------------------------------------------------------

  class GeoPointFieldMapper {
    const simpleName: string
    const fieldType: GeoPointFieldType
    /** The path type of the object the field was built in. */
    const pathType: PathType
    const latMapper: Option<SubMapper>
    const lonMapper: Option<SubMapper>
    const geohashMapper: Option<SubMapper>
    /** The mappers of the field's multi-fields. */
    const multiFields: seq<SubMapper>

    constructor (simpleName: string, fieldType: GeoPointFieldType, pathType: PathType,
                 latMapper: Option<SubMapper>, lonMapper: Option<SubMapper>, geohashMapper: Option<SubMapper>,
                 multiFields: seq<SubMapper>)
      ensures this.simpleName == simpleName && this.fieldType == fieldType && this.pathType == pathType
      ensures this.latMapper == latMapper && this.lonMapper == lonMapper && this.geohashMapper == geohashMapper
      ensures this.multiFields == multiFields
    {
      this.simpleName := simpleName;
      this.fieldType := fieldType;
      this.pathType := pathType;
      this.latMapper := latMapper;
      this.lonMapper := lonMapper;
      this.geohashMapper := geohashMapper;
      this.multiFields := multiFields;
    }

    /** The sub-mappers are there exactly for the sub-fields the field type has. */
    predicate Valid()
      reads this, fieldType
    {
      && (geohashMapper.Some? <==> GeohashEnabled(fieldType.State()))
      && (latMapper.Some? <==> LatLonEnabled(fieldType.State()))
      && (lonMapper.Some? <==> LatLonEnabled(fieldType.State()))
    }

    /** iterator: the multi-field mappers, then the geohash mapper, then lat and lon. */
    function Iterator(): (r: seq<SubMapper>)
      requires Valid()
      reads this, fieldType
      ensures |r| == |multiFields| + (if GeohashEnabled(fieldType.State()) then 1 else 0)
                                   + (if LatLonEnabled(fieldType.State()) then 2 else 0)
      ensures r[..|multiFields|] == multiFields
      ensures GeohashEnabled(fieldType.State()) ==> r[|multiFields|] == geohashMapper.value
      ensures LatLonEnabled(fieldType.State()) ==> r[|r| - 2..] == [latMapper.value, lonMapper.value]
    {
      var geohash := if GeohashEnabled(fieldType.State()) then [geohashMapper.value] else [];
      var latLon := if LatLonEnabled(fieldType.State()) then [latMapper.value, lonMapper.value] else [];
      multiFields + geohash + latLon
    }

    /**
      addGeohashField: the geohash mapper indexes the geohash cut to the
      field's precision and then each shorter prefix, down to a single
      character when prefixes are enabled and otherwise down to the whole
      geohash only. Returns the values indexed, in order.
    */
    method AddGeohashField(geohash: string) returns (indexed: seq<string>)
      requires GeohashEnabled(fieldType.State())
      ensures indexed == GeohashPrefixes(geohash, fieldType.geohashPrecision, fieldType.geohashPrefixEnabled)
    {
      var len := if fieldType.geohashPrecision < |geohash| then fieldType.geohashPrecision else |geohash|;
      var min := if fieldType.geohashPrefixEnabled then 1 else |geohash|;
      indexed := [];
      var i := len;
      while i >= min
        invariant i <= len && (i < len ==> i >= min - 1)
        invariant indexed == seq(len - i, k requires 0 <= k < len - i => geohash[..len - k])
        decreases i
      {
        indexed := indexed + [geohash[..i]];
        i := i - 1;
      }
    }
  }

  /** The values addGeohashField indexes: the prefixes of the geohash from min(precision, length) characters down to the last one allowed. */
  function GeohashPrefixes(geohash: string, precision: int, prefixEnabled: bool): (r: seq<string>)
    ensures var len := if precision < |geohash| then precision else |geohash|;
      var min := if prefixEnabled then 1 else |geohash|;
      && |r| == (if len >= min then len - min + 1 else 0)
      && forall k :: 0 <= k < |r| ==> r[k] == geohash[..len - k]
  {
    var len := if precision < |geohash| then precision else |geohash|;
    var min := if prefixEnabled then 1 else |geohash|;
    if len >= min then seq(len - min + 1, k requires 0 <= k < len - min + 1 => geohash[..len - k]) else []
  }

  /** Without prefixes, the whole geohash is indexed once if the precision allows it and nothing otherwise. */
  lemma WholeGeohashOrNothing(geohash: string, precision: int)
    ensures GeohashPrefixes(geohash, precision, false) == if precision >= |geohash| then [geohash] else []
  {
    var r := GeohashPrefixes(geohash, precision, false);
    if precision >= |geohash| {
      assert |r| == 1 && r[0] == geohash[..|geohash|] == geohash;
      assert r == [r[0]];
    } else {
      assert |r| == 0;
    }
  }

  /** With prefixes, every non-empty prefix up to the precision is indexed once, longest first. */
  lemma EveryPrefixOnce(geohash: string, precision: int, p: string)
    requires precision >= 1
    ensures p in GeohashPrefixes(geohash, precision, true) <==>
      1 <= |p| <= precision && |p| <= |geohash| && p == geohash[..|p|]
  {
    var r := GeohashPrefixes(geohash, precision, true);
    var len := if precision < |geohash| then precision else |geohash|;
    if 1 <= |p| <= precision && |p| <= |geohash| && p == geohash[..|p|] {
      assert r[len - |p|] == p;
    }
  }
}
