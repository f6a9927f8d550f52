/**
  The legacy geo_point mapper: the options only it reads (ignore_malformed,
  coerce and, on indices created before 2.0.0, the older validate* and
  normalize* names), its build, which turns doc values off, the coerce flag it
  writes out, and the doc-values field that keeps the distinct points of a
  document and serialises them as little-endian pairs of 64-bit patterns.
*/
module GeoPointLegacy {

  import opened Wrappers
  import opened GeoPointMapper

  // ---------------------------------------------------------------------
  // The legacy option loop
  // ---------------------------------------------------------------------

  /** The two flags the legacy options set on the field type. */
  datatype Flags = Flags(ignoreMalformed: bool, coerce: bool)

  /** The keys the legacy loop consumes; the older names only on indices created before 2.0.0. */
  predicate IsLegacyKey(key: string, version: int) {
    || key == "ignore_malformed" || key == "coerce"
    || (version < V2_0_0 &&
        (|| key == "validate" || key == "validate_lon" || key == "validate_lat"
         || key == "normalize" || key == "normalize_lat" || key == "normalize_lon"))
  }

  /**
    One legacy entry: ignore_malformed counts only while coerce is off;
    validate* sets ignore_malformed to the negated value only while it is
    off; coerce sets coerce and, when true, ignore_malformed; normalize and
    normalize_lat set coerce; normalize_lon sets it only while it is off.
  */
  function ApplyLegacy(f: Flags, e: Entry, tr: TextReading): Flags {
    var b := NodeBoolean(e.value, tr);
    if e.key == "ignore_malformed" then (if !f.coerce then f.(ignoreMalformed := b) else f)
    else if e.key == "validate" || e.key == "validate_lon" || e.key == "validate_lat" then
      (if !f.ignoreMalformed then f.(ignoreMalformed := !b) else f)
    else if e.key == "coerce" then f.(coerce := b, ignoreMalformed := if b then true else f.ignoreMalformed)
    else if e.key == "normalize" || e.key == "normalize_lat" then f.(coerce := b)
    else if !f.coerce then f.(coerce := b)
    else f
  }

  datatype LegacyParsed = LegacyParsed(flags: Flags, remaining: seq<Entry>)

  /** The legacy loop over a node, starting from the given flags. */
  function ParseLegacy(f: Flags, node: seq<Entry>, version: int, tr: TextReading): LegacyParsed
    decreases |node|
  {
    if node == [] then LegacyParsed(f, [])
    else
      var p := ParseLegacy(f, node[..|node| - 1], version, tr);
      var e := node[|node| - 1];
      if IsLegacyKey(e.key, version) then LegacyParsed(ApplyLegacy(p.flags, e, tr), p.remaining)
      else LegacyParsed(p.flags, p.remaining + [e])
  }

  /**
    The body of the legacy loop for one entry: sets the flags it names on
    the field type and reports whether the entry was read.
  */
  method ApplyLegacyEntry(ft: GeoPointFieldType, e: Entry, version: int, tr: TextReading) returns (consumed: bool)
    modifies ft
    ensures consumed == IsLegacyKey(e.key, version)
    ensures Flags(ft.ignoreMalformed, ft.coerce) ==
      if consumed then ApplyLegacy(Flags(old(ft.ignoreMalformed), old(ft.coerce)), e, tr)
      else Flags(old(ft.ignoreMalformed), old(ft.coerce))
    ensures ft.State() == old(ft.State()).(ignoreMalformed := ft.ignoreMalformed, coerce := ft.coerce)
  {
    var legacy := version < V2_0_0;
    var b := NodeBoolean(e.value, tr);
    var ignoreMalformed, coerce := ft.ignoreMalformed, ft.coerce;
    consumed := true;
    if e.key == "ignore_malformed" {
      if coerce == false {
        ignoreMalformed := b;
      }
    } else if legacy && (e.key == "validate" || e.key == "validate_lon" || e.key == "validate_lat") {
      if ignoreMalformed == false {
        ignoreMalformed := !b;
      }
    } else if e.key == "coerce" {
      coerce := b;
      if coerce == true {
        ignoreMalformed := true;
      }
    } else if legacy && (e.key == "normalize" || e.key == "normalize_lat") {
      coerce := b;
    } else if legacy && e.key == "normalize_lon" {
      if coerce == false {
        coerce := b;
      }
    } else {
      consumed := false;
    }
    ft.ignoreMalformed, ft.coerce := ignoreMalformed, coerce;
  }

  /**
    GeoPointFieldMapperLegacy.parse: the loop over the node left by the
    common option loop, setting the field type's flags in place and removing
    the entries it reads.
  */
  method Parse(builder: GeoPointBuilder, node: seq<Entry>, version: int, tr: TextReading) returns (remaining: seq<Entry>)
    modifies builder.fieldType
    ensures ParseLegacy(Flags(old(builder.fieldType.ignoreMalformed), old(builder.fieldType.coerce)), node, version, tr)
      == LegacyParsed(Flags(builder.fieldType.ignoreMalformed, builder.fieldType.coerce), remaining)
    ensures builder.fieldType.State() ==
      old(builder.fieldType.State()).(ignoreMalformed := builder.fieldType.ignoreMalformed, coerce := builder.fieldType.coerce)
  {
    var ft := builder.fieldType;
    ghost var start := Flags(ft.ignoreMalformed, ft.coerce);
    remaining := [];
    var i := 0;
    while i < |node|
      invariant 0 <= i <= |node|
      invariant ParseLegacy(start, node[..i], version, tr) == LegacyParsed(Flags(ft.ignoreMalformed, ft.coerce), remaining)
      invariant ft.State() == old(ft.State()).(ignoreMalformed := ft.ignoreMalformed, coerce := ft.coerce)
    {
      var e := node[i];
      assert node[..i + 1][..i] == node[..i];
      var consumed := ApplyLegacyEntry(ft, e, version, tr);
      if !consumed {
        remaining := remaining + [e];
      }
      i := i + 1;
    }
    assert node[..i] == node;
  }

  /** A coerce entry that reads true turns both flags on. */
  lemma CoerceForcesIgnoreMalformed(f: Flags, v: NodeValue, tr: TextReading)
    requires NodeBoolean(v, tr)
    ensures ApplyLegacy(f, Entry("coerce", v), tr) == Flags(true, true)
  {
  }

  /** A key that can turn coerce off: coerce itself, and normalize or normalize_lat on indices created before 2.0.0. */
  predicate ResetsCoerce(key: string, version: int) {
    key == "coerce" || (version < V2_0_0 && (key == "normalize" || key == "normalize_lat"))
  }

  /**
    Once coerce and ignore_malformed are both on, only an entry that can
    reset coerce changes either flag: ignore_malformed is ignored while
    coerce is on, validate* while ignore_malformed is on, and normalize_lon
    while coerce is on.
  */
  lemma {:induction false} CoerceHolds(node: seq<Entry>, version: int, tr: TextReading)
    requires forall e :: e in node ==> !ResetsCoerce(e.key, version)
    ensures ParseLegacy(Flags(true, true), node, version, tr).flags == Flags(true, true)
    decreases |node|
  {
    if node != [] {
      var init := node[..|node| - 1];
      assert forall e :: e in init ==> e in node;
      CoerceHolds(init, version, tr);
    }
  }

  /** Only an ignore_malformed entry can turn ignore_malformed off. */
  lemma {:induction false} IgnoreMalformedHolds(f: Flags, node: seq<Entry>, version: int, tr: TextReading)
    requires f.ignoreMalformed
    requires forall e :: e in node ==> e.key != "ignore_malformed"
    ensures ParseLegacy(f, node, version, tr).flags.ignoreMalformed
    decreases |node|
  {
    if node != [] {
      var init := node[..|node| - 1];
      assert forall e :: e in init ==> e in node;
      IgnoreMalformedHolds(f, init, version, tr);
    }
  }

  /** The legacy loop keeps exactly the entries it does not read; on newer indices the older names stay. */
  lemma {:induction false} LegacyRemaining(f: Flags, node: seq<Entry>, version: int, tr: TextReading, e: Entry)
    ensures e in ParseLegacy(f, node, version, tr).remaining <==> e in node && !IsLegacyKey(e.key, version)
    ensures version >= V2_0_0 && e in node && e.key != "ignore_malformed" && e.key != "coerce" ==>
      e in ParseLegacy(f, node, version, tr).remaining
    decreases |node|
  {
    if node != [] {
      var init := node[..|node| - 1];
      LegacyRemaining(f, init, version, tr, e);
      assert node == init + [node[|node| - 1]];
    }
  }

  // ---------------------------------------------------------------------
  // Type parser and build
  // ---------------------------------------------------------------------

  /** What the type parser reads from a node for a legacy field: the options, the flags and the entries left. */
  datatype Mapping = Mapping(options: Options, flags: Flags, remaining: seq<Entry>)

  function ParseMapping(name: string, node: seq<Entry>, version: int, multiFieldKeys: set<string>, tr: TextReading): Result<Mapping> {
    match ParseOptions(name, node, version, multiFieldKeys, tr)
    case Failure(m) => Failure(m)
    case Success(p) =>
      var l := ParseLegacy(Flags(false, false), p.remaining, version, tr);
      Success(Mapping(p.options, l.flags, l.remaining))
  }

  /**
    The type parser for a legacy field: a fresh builder, the common option
    loop, then the legacy loop over what it left.
  */
  method TypeParse(name: string, node: seq<Entry>, version: int, multiFieldKeys: set<string>, tr: TextReading,
                   stored: bool, hasDocValues: bool)
    returns (builder: GeoPointBuilder, r: Result<seq<Entry>>)
    ensures fresh(builder) && fresh(builder.fieldType) && fresh(builder.defaultFieldType)
    ensures builder.name == name && builder.fieldType != builder.defaultFieldType
    ensures r.Success? <==> ParseMapping(name, node, version, multiFieldKeys, tr).Success?
    ensures r.Success? ==>
      && ParseMapping(name, node, version, multiFieldKeys, tr).value ==
           Mapping(builder.CurrentOptions(), Flags(builder.fieldType.ignoreMalformed, builder.fieldType.coerce), r.value)
      && builder.fieldType.State() == FreshState(stored, hasDocValues).(
           ignoreMalformed := builder.fieldType.ignoreMalformed, coerce := builder.fieldType.coerce)
      && builder.defaultFieldType.State() == FreshState(stored, hasDocValues)
  {
    builder := new GeoPointBuilder(name, stored, hasDocValues);
    var common := builder.ParseOptionEntries(node, version, multiFieldKeys, tr);
    if common.Failure? {
      return builder, Failure(common.error);
    }
    var rest := Parse(builder, common.value, version, tr);
    r := Success(rest);
  }

  /** The field type a legacy build leaves: the sub-field types, and no doc values. */
  function Built(s: FieldTypeState, o: Options): FieldTypeState {
    WithSubFields(s, o).(hasDocValues := false)
  }

  /**
    build: the sub-mappers, doc values turned off on the field type and on
    the default field type, and a mapper whose path type is the one the
    context had, not the builder's.
  */
  method Build(builder: GeoPointBuilder, context: ContentPath, multiFields: seq<SubMapper>) returns (m: GeoPointFieldMapper)
    requires builder.fieldType != builder.defaultFieldType
    modifies context, builder.fieldType, builder.defaultFieldType
    ensures context.pathType == old(context.pathType) && context.elements == old(context.elements)
    ensures builder.fieldType.State() == Built(old(builder.fieldType.State()), builder.CurrentOptions())
    ensures builder.defaultFieldType.State() == old(builder.defaultFieldType.State()).(hasDocValues := false)
    ensures m.fieldType == builder.fieldType && m.pathType == old(context.pathType)
    ensures m.simpleName == builder.name && m.multiFields == multiFields
    ensures m.latMapper.Some? <==> builder.enableLatLon
    ensures m.geohashMapper.Some? <==> builder.enableGeoHash || builder.enableGeohashPrefix
    ensures !LatLonEnabled(old(builder.fieldType.State())) && !GeohashEnabled(old(builder.fieldType.State())) ==> m.Valid()
  {
    var origPathType := context.pathType;
    var lat, lon, geohash := builder.BuildSubMappers(context);
    builder.fieldType.SetHasDocValues(false);
    builder.defaultFieldType.SetHasDocValues(false);
    m := new GeoPointFieldMapper(builder.name, builder.fieldType, origPathType, lat, lon, geohash, multiFields);
  }

  // ---------------------------------------------------------------------
  // Writing the options, and reading them back
  // ---------------------------------------------------------------------

  /** doXContentBody: the common options, then coerce when it is on or defaults are included. */
  function LegacyXContent(s: FieldTypeState, pathType: PathType, includeDefaults: bool): (r: seq<Entry>)
    ensures var base := XContent(s, pathType, includeDefaults);
      && |r| == |base| + (if includeDefaults || s.coerce then 1 else 0)
      && r[..|base|] == base
      && (includeDefaults || s.coerce ==> r[|r| - 1] == Entry("coerce", BoolValue(s.coerce)))
  {
    XContent(s, pathType, includeDefaults) + Field(includeDefaults || s.coerce, "coerce", BoolValue(s.coerce))
  }

  /** Parse a node for a legacy field and build it, as the field type that results. */
  function ParseAndBuild(name: string, node: seq<Entry>, version: int, multiFieldKeys: set<string>, tr: TextReading,
                         stored: bool, hasDocValues: bool): Result<FieldTypeState>
  {
    match ParseMapping(name, node, version, multiFieldKeys, tr)
    case Failure(m) => Failure(m)
    case Success(mp) =>
      Success(Built(FreshState(stored, hasDocValues).(ignoreMalformed := mp.flags.ignoreMalformed, coerce := mp.flags.coerce), mp.options))
  }

  /**
    The field types a legacy build can produce, apart from the relation
    between coerce and ignore_malformed: lat and lon types together, geohash
    settings only with a geohash type, no doc values.
  */
  predicate BuiltShape(s: FieldTypeState) {
    && (s.latType.Some? ==> s.lonType == s.latType && s.latType.value.stored == s.stored && !s.latType.value.hasDocValues)
    && (s.latType.None? ==> s.lonType.None?)
    && (s.geohashType.Some? ==> s.geohashType == Some(GeohashType))
    && (s.geohashType.None? ==> s.geohashPrecision == 0 && !s.geohashPrefixEnabled)
    && !s.hasDocValues
  }

  /** Every legacy field type that parsing and building produce has the built shape. */
  lemma ParseAndBuildShape(name: string, node: seq<Entry>, version: int, multiFieldKeys: set<string>, tr: TextReading,
                           stored: bool, hasDocValues: bool)
    requires ParseAndBuild(name, node, version, multiFieldKeys, tr, stored, hasDocValues).Success?
    ensures BuiltShape(ParseAndBuild(name, node, version, multiFieldKeys, tr, stored, hasDocValues).value)
  {
  }

  /** The option loop over a node with one field more: one more step, or none. */
  lemma ParseOptionsField(name: string, prefix: seq<Entry>, c: bool, key: string, v: NodeValue,
                          version: int, multiFieldKeys: set<string>, tr: TextReading)
    ensures ParseOptions(name, prefix + Field(c, key, v), version, multiFieldKeys, tr) ==
      if c then ParseStep(ParseOptions(name, prefix, version, multiFieldKeys, tr), name, Entry(key, v), version, multiFieldKeys, tr)
      else ParseOptions(name, prefix, version, multiFieldKeys, tr)
  {
    if c {
      assert (prefix + [Entry(key, v)])[..|prefix|] == prefix;
    } else {
      assert prefix + [] == prefix;
    }
  }

  /** The legacy loop over a node with one field more: one more step, or none. */
  lemma ParseLegacyField(f: Flags, prefix: seq<Entry>, c: bool, key: string, v: NodeValue, version: int, tr: TextReading)
    ensures ParseLegacy(f, prefix + Field(c, key, v), version, tr) ==
      if !c then ParseLegacy(f, prefix, version, tr)
      else if IsLegacyKey(key, version) then
        LegacyParsed(ApplyLegacy(ParseLegacy(f, prefix, version, tr).flags, Entry(key, v), tr), ParseLegacy(f, prefix, version, tr).remaining)
      else LegacyParsed(ParseLegacy(f, prefix, version, tr).flags, ParseLegacy(f, prefix, version, tr).remaining + [Entry(key, v)])
  {
    if c {
      assert (prefix + [Entry(key, v)])[..|prefix|] == prefix;
    } else {
      assert prefix + [] == prefix;
    }
  }

  /** The options read back from a built field type give that field type's sub-fields again. */
  lemma SubFieldsReadBack(s: FieldTypeState, o: Options)
    requires BuiltShape(s)
    requires o.enableLatLon == LatLonEnabled(s)
    requires LatLonEnabled(s) ==> LatLonType(o, s.stored) == s.latType.value
    requires o.enableGeoHash == GeohashEnabled(s) && o.enableGeohashPrefix == s.geohashPrefixEnabled
    requires GeohashEnabled(s) ==> o.geoHashPrecision == s.geohashPrecision
    ensures WithSubFields(FreshState(s.stored, false), o) == s.(ignoreMalformed := false, coerce := false)
  {
  }

  /** The path entry written out and left in the node for the legacy loop: on newer indices, when no multi-field claims it. */
  function PathLeft(pathType: PathType, includeDefaults: bool, version: int, multiFieldKeys: set<string>): seq<Entry> {
    Field((includeDefaults || pathType != Full) && !IsOptionKey("path", version) && "path" !in multiFieldKeys,
          "path", TextValue(PathTypeName(pathType)))
  }

  /** Reading back a lat_lon field. */
  lemma ReadLatLon(name: string, prefix: seq<Entry>, c: bool, b: bool,
                   version: int, multiFieldKeys: set<string>, tr: TextReading, p: Parsed)
    requires ParseOptions(name, prefix, version, multiFieldKeys, tr) == Success(p)
    ensures ParseOptions(name, prefix + Field(c, "lat_lon", BoolValue(b)), version, multiFieldKeys, tr) ==
      Success(if c then Parsed(p.options.(enableLatLon := b), p.remaining) else p)
  {
    ParseOptionsField(name, prefix, c, "lat_lon", BoolValue(b), version, multiFieldKeys, tr);
  }

  /** Reading back a precision_step field. */
  lemma ReadPrecisionStep(name: string, prefix: seq<Entry>, c: bool, n: Int32,
                          version: int, multiFieldKeys: set<string>, tr: TextReading, p: Parsed)
    requires ParseOptions(name, prefix, version, multiFieldKeys, tr) == Success(p)
    ensures ParseOptions(name, prefix + Field(c, "precision_step", IntValue(n)), version, multiFieldKeys, tr) ==
      Success(if c then Parsed(p.options.(precisionStep := Some(n)), p.remaining) else p)
  {
    ParseOptionsField(name, prefix, c, "precision_step", IntValue(n), version, multiFieldKeys, tr);
  }

  /** Reading back a geohash field. */
  lemma ReadGeohash(name: string, prefix: seq<Entry>, c: bool, b: bool,
                    version: int, multiFieldKeys: set<string>, tr: TextReading, p: Parsed)
    requires ParseOptions(name, prefix, version, multiFieldKeys, tr) == Success(p)
    ensures ParseOptions(name, prefix + Field(c, "geohash", BoolValue(b)), version, multiFieldKeys, tr) ==
      Success(if c then Parsed(p.options.(enableGeoHash := b), p.remaining) else p)
  {
    ParseOptionsField(name, prefix, c, "geohash", BoolValue(b), version, multiFieldKeys, tr);
  }

  /** Reading back a geohash_prefix field. */
  lemma ReadGeohashPrefix(name: string, prefix: seq<Entry>, c: bool, b: bool,
                          version: int, multiFieldKeys: set<string>, tr: TextReading, p: Parsed)
    requires ParseOptions(name, prefix, version, multiFieldKeys, tr) == Success(p)
    ensures ParseOptions(name, prefix + Field(c, "geohash_prefix", BoolValue(b)), version, multiFieldKeys, tr) ==
      Success(if c then Parsed(p.options.(enableGeohashPrefix := b, enableGeoHash := b || p.options.enableGeoHash), p.remaining) else p)
  {
    ParseOptionsField(name, prefix, c, "geohash_prefix", BoolValue(b), version, multiFieldKeys, tr);
  }

  /** Reading back a geohash_precision field. */
  lemma ReadGeohashPrecision(name: string, prefix: seq<Entry>, c: bool, n: Int32,
                             version: int, multiFieldKeys: set<string>, tr: TextReading, p: Parsed)
    requires ParseOptions(name, prefix, version, multiFieldKeys, tr) == Success(p)
    ensures ParseOptions(name, prefix + Field(c, "geohash_precision", IntValue(n)), version, multiFieldKeys, tr) ==
      Success(if c then Parsed(p.options.(geoHashPrecision := n), p.remaining) else p)
  {
    ParseOptionsField(name, prefix, c, "geohash_precision", IntValue(n), version, multiFieldKeys, tr);
  }

  /** Reading back a field whose entry is no option and no multi-field: it is left in the node. */
  lemma ReadOtherField(name: string, prefix: seq<Entry>, c: bool, key: string, v: NodeValue,
                       version: int, multiFieldKeys: set<string>, tr: TextReading, p: Parsed)
    requires !IsOptionKey(key, version) && key !in multiFieldKeys
    requires ParseOptions(name, prefix, version, multiFieldKeys, tr) == Success(p)
    ensures ParseOptions(name, prefix + Field(c, key, v), version, multiFieldKeys, tr) ==
      Success(Parsed(p.options, p.remaining + Field(c, key, v)))
  {
    ParseOptionsField(name, prefix, c, key, v, version, multiFieldKeys, tr);
    assert p.remaining + [] == p.remaining;
  }

  /** Reading back the path field: the path type on older indices; on newer ones it is left or claimed. */
  lemma ReadPathField(name: string, c: bool, pathType: PathType, version: int, multiFieldKeys: set<string>, tr: TextReading)
    ensures ParseOptions(name, Field(c, "path", TextValue(PathTypeName(pathType))), version, multiFieldKeys, tr) ==
      Success(Parsed(DefaultOptions.(pathType := if c && IsOptionKey("path", version) then pathType else Full),
                     Field(c && !IsOptionKey("path", version) && "path" !in multiFieldKeys, "path", TextValue(PathTypeName(pathType)))))
  {
    PathTypeRoundTrip(name, pathType);
    ParseOptionsField(name, [], c, "path", TextValue(PathTypeName(pathType)), version, multiFieldKeys, tr);
    assert [] + Field(c, "path", TextValue(PathTypeName(pathType))) == Field(c, "path", TextValue(PathTypeName(pathType)));
  }

  /** The options the option loop reads back from what doXContentBody writes for a field type. */
  function ReadOptions(s: FieldTypeState, pathType: PathType, d: bool, version: int): Options {
    DefaultOptions.(
      pathType := if (d || pathType != Full) && IsOptionKey("path", version) then pathType else Full,
      enableLatLon := LatLonEnabled(s),
      precisionStep := if LatLonEnabled(s) && (d || s.latType.value.precisionStep != DefaultPrecisionStep)
                       then Some(s.latType.value.precisionStep) else None,
      enableGeoHash := GeohashEnabled(s),
      enableGeohashPrefix := s.geohashPrefixEnabled,
      geoHashPrecision := if GeohashEnabled(s) then s.geohashPrecision else DefaultGeoHashPrecision)
  }

  /** Reading back the first half of what doXContentBody writes: path, lat_lon and precision_step. */
  lemma ReadBackLatLon(s: FieldTypeState, pathType: PathType, d: bool,
                       name: string, version: int, multiFieldKeys: set<string>, tr: TextReading)
    ensures ParseOptions(name,
        Field(d || pathType != Full, "path", TextValue(PathTypeName(pathType)))
        + Field(d || LatLonEnabled(s), "lat_lon", BoolValue(LatLonEnabled(s)))
        + Field(LatLonEnabled(s) && (d || s.latType.value.precisionStep != DefaultPrecisionStep),
                "precision_step", IntValue(if LatLonEnabled(s) then s.latType.value.precisionStep else 0)),
        version, multiFieldKeys, tr) ==
      Success(Parsed(
        ReadOptions(s, pathType, d, version).(enableGeoHash := false, enableGeohashPrefix := false,
                                              geoHashPrecision := DefaultGeoHashPrecision),
        PathLeft(pathType, d, version, multiFieldKeys)))
  {
    var step := if LatLonEnabled(s) then s.latType.value.precisionStep else 0;
    var x0 := Field(d || pathType != Full, "path", TextValue(PathTypeName(pathType)));
    var x1 := x0 + Field(d || LatLonEnabled(s), "lat_lon", BoolValue(LatLonEnabled(s)));
    var left := PathLeft(pathType, d, version, multiFieldKeys);
    ReadPathField(name, d || pathType != Full, pathType, version, multiFieldKeys, tr);
    var o0 := DefaultOptions.(pathType := if (d || pathType != Full) && IsOptionKey("path", version) then pathType else Full);
    ReadLatLon(name, x0, d || LatLonEnabled(s), LatLonEnabled(s), version, multiFieldKeys, tr, Parsed(o0, left));
    ReadPrecisionStep(name, x1, LatLonEnabled(s) && (d || step != DefaultPrecisionStep), step,
                      version, multiFieldKeys, tr, Parsed(o0.(enableLatLon := LatLonEnabled(s)), left));
  }

  /** Reading back the second half of what doXContentBody writes: the geohash settings and ignore_malformed. */
  lemma ReadBackGeohash(s: FieldTypeState, d: bool, name: string, prefix: seq<Entry>,
                        version: int, multiFieldKeys: set<string>, tr: TextReading, p: Parsed)
    requires BuiltShape(s) && "ignore_malformed" !in multiFieldKeys
    requires ParseOptions(name, prefix, version, multiFieldKeys, tr) == Success(p)
    requires !p.options.enableGeoHash && !p.options.enableGeohashPrefix
    requires p.options.geoHashPrecision == DefaultGeoHashPrecision
    ensures ParseOptions(name,
        prefix
        + Field(d || GeohashEnabled(s), "geohash", BoolValue(GeohashEnabled(s)))
        + Field(d || s.geohashPrefixEnabled, "geohash_prefix", BoolValue(s.geohashPrefixEnabled))
        + Field(GeohashEnabled(s) && (d || s.geohashPrecision != DefaultGeoHashPrecision),
                "geohash_precision", IntValue(s.geohashPrecision))
        + Field(d || s.ignoreMalformed, "ignore_malformed", BoolValue(s.ignoreMalformed)),
        version, multiFieldKeys, tr) ==
      Success(Parsed(
        p.options.(enableGeoHash := GeohashEnabled(s), enableGeohashPrefix := s.geohashPrefixEnabled,
                   geoHashPrecision := if GeohashEnabled(s) then s.geohashPrecision else DefaultGeoHashPrecision),
        p.remaining + Field(d || s.ignoreMalformed, "ignore_malformed", BoolValue(s.ignoreMalformed))))
  {
    var x3 := prefix + Field(d || GeohashEnabled(s), "geohash", BoolValue(GeohashEnabled(s)));
    var x4 := x3 + Field(d || s.geohashPrefixEnabled, "geohash_prefix", BoolValue(s.geohashPrefixEnabled));
    var x5 := x4 + Field(GeohashEnabled(s) && (d || s.geohashPrecision != DefaultGeoHashPrecision),
                         "geohash_precision", IntValue(s.geohashPrecision));
    ReadGeohash(name, prefix, d || GeohashEnabled(s), GeohashEnabled(s), version, multiFieldKeys, tr, p);
    var o3 := p.options.(enableGeoHash := GeohashEnabled(s));
    ReadGeohashPrefix(name, x3, d || s.geohashPrefixEnabled, s.geohashPrefixEnabled,
                      version, multiFieldKeys, tr, Parsed(o3, p.remaining));
    var o4 := o3.(enableGeohashPrefix := s.geohashPrefixEnabled);
    ReadGeohashPrecision(name, x4, GeohashEnabled(s) && (d || s.geohashPrecision != DefaultGeoHashPrecision),
                         s.geohashPrecision, version, multiFieldKeys, tr, Parsed(o4, p.remaining));
    var o5 := o4.(geoHashPrecision := if GeohashEnabled(s) then s.geohashPrecision else DefaultGeoHashPrecision);
    ReadOtherField(name, x5, d || s.ignoreMalformed, "ignore_malformed", BoolValue(s.ignoreMalformed),
                   version, multiFieldKeys, tr, Parsed(o5, p.remaining));
  }

  /**
    Reading the common options back from what doXContentBody writes: every
    setting comes back, and what is left is the path entry on newer indices
    and the ignore_malformed entry.
  */
  lemma ReadBackOptions(s: FieldTypeState, pathType: PathType, includeDefaults: bool,
                        name: string, version: int, multiFieldKeys: set<string>, tr: TextReading)
    requires BuiltShape(s)
    requires "ignore_malformed" !in multiFieldKeys
    ensures ParseOptions(name, XContent(s, pathType, includeDefaults), version, multiFieldKeys, tr)
      == Success(Parsed(ReadOptions(s, pathType, includeDefaults, version),
                        PathLeft(pathType, includeDefaults, version, multiFieldKeys)
                        + Field(includeDefaults || s.ignoreMalformed, "ignore_malformed", BoolValue(s.ignoreMalformed))))
  {
    var d := includeDefaults;
    var x2 := Field(d || pathType != Full, "path", TextValue(PathTypeName(pathType)))
        + Field(d || LatLonEnabled(s), "lat_lon", BoolValue(LatLonEnabled(s)))
        + Field(LatLonEnabled(s) && (d || s.latType.value.precisionStep != DefaultPrecisionStep),
                "precision_step", IntValue(if LatLonEnabled(s) then s.latType.value.precisionStep else 0));
    var x6 := x2
        + Field(d || GeohashEnabled(s), "geohash", BoolValue(GeohashEnabled(s)))
        + Field(d || s.geohashPrefixEnabled, "geohash_prefix", BoolValue(s.geohashPrefixEnabled))
        + Field(GeohashEnabled(s) && (d || s.geohashPrecision != DefaultGeoHashPrecision),
                "geohash_precision", IntValue(s.geohashPrecision))
        + Field(d || s.ignoreMalformed, "ignore_malformed", BoolValue(s.ignoreMalformed));
    assert XContent(s, pathType, d) == x6;
    ReadBackLatLon(s, pathType, d, name, version, multiFieldKeys, tr);
    var o2 := ReadOptions(s, pathType, d, version).(enableGeoHash := false, enableGeohashPrefix := false,
                                                     geoHashPrecision := DefaultGeoHashPrecision);
    var left := PathLeft(pathType, d, version, multiFieldKeys);
    ReadBackGeohash(s, d, name, x2, version, multiFieldKeys, tr, Parsed(o2, left));
  }

  /** The keys that set coerce without ignore_malformed: the normalize names, on indices created before 2.0.0. */
  predicate Normalizes(key: string, version: int) {
    version < V2_0_0 && (key == "normalize" || key == "normalize_lat" || key == "normalize_lon")
  }

  /** Without the normalize names, the legacy loop keeps coerce implying ignore_malformed. */
  lemma {:induction false} CoerceImpliesIgnoreMalformed(f: Flags, node: seq<Entry>, version: int, tr: TextReading)
    requires f.coerce ==> f.ignoreMalformed
    requires forall e :: e in node ==> !Normalizes(e.key, version)
    ensures ParseLegacy(f, node, version, tr).flags.coerce ==> ParseLegacy(f, node, version, tr).flags.ignoreMalformed
    decreases |node|
  {
    if node != [] {
      var init := node[..|node| - 1];
      assert forall e :: e in init ==> e in node;
      CoerceImpliesIgnoreMalformed(f, init, version, tr);
    }
  }

  /** The legacy loop over a node with an ignore_malformed field more. */
  lemma LegacyIgnoreMalformedField(f: Flags, prefix: seq<Entry>, c: bool, b: bool, version: int, tr: TextReading, g: Flags)
    requires ParseLegacy(f, prefix, version, tr).flags == g
    ensures ParseLegacy(f, prefix + Field(c, "ignore_malformed", BoolValue(b)), version, tr).flags ==
      if c && !g.coerce then g.(ignoreMalformed := b) else g
  {
    ParseLegacyField(f, prefix, c, "ignore_malformed", BoolValue(b), version, tr);
  }

  /** The legacy loop over a node with a coerce field more. */
  lemma LegacyCoerceField(f: Flags, prefix: seq<Entry>, c: bool, b: bool, version: int, tr: TextReading, g: Flags)
    requires ParseLegacy(f, prefix, version, tr).flags == g
    ensures ParseLegacy(f, prefix + Field(c, "coerce", BoolValue(b)), version, tr).flags ==
      if c then Flags(b || g.ignoreMalformed, b) else g
  {
    ParseLegacyField(f, prefix, c, "coerce", BoolValue(b), version, tr);
  }

  /** The legacy loop passes over a path entry. */
  lemma LegacyPathField(f: Flags, c: bool, v: NodeValue, version: int, tr: TextReading)
    ensures ParseLegacy(f, Field(c, "path", v), version, tr).flags == f
  {
    ParseLegacyField(f, [], c, "path", v, version, tr);
    assert [] + Field(c, "path", v) == Field(c, "path", v);
  }

  /** The legacy flags read back from the entries the option loop leaves: each flag as it was written. */
  lemma ReadBackFlags(s: FieldTypeState, pathType: PathType, d: bool, version: int, multiFieldKeys: set<string>, tr: TextReading)
    requires s.coerce ==> s.ignoreMalformed
    ensures ParseLegacy(Flags(false, false),
        PathLeft(pathType, d, version, multiFieldKeys)
        + Field(d || s.ignoreMalformed, "ignore_malformed", BoolValue(s.ignoreMalformed))
        + Field(d || s.coerce, "coerce", BoolValue(s.coerce)), version, tr).flags
      == Flags(s.ignoreMalformed, s.coerce)
  {
    var f0 := Flags(false, false);
    var left := PathLeft(pathType, d, version, multiFieldKeys);
    var im := Field(d || s.ignoreMalformed, "ignore_malformed", BoolValue(s.ignoreMalformed));
    LegacyPathField(f0, (d || pathType != Full) && !IsOptionKey("path", version) && "path" !in multiFieldKeys,
                    TextValue(PathTypeName(pathType)), version, tr);
    LegacyIgnoreMalformedField(f0, left, d || s.ignoreMalformed, s.ignoreMalformed, version, tr, f0);
    LegacyCoerceField(f0, left + im, d || s.coerce, s.coerce, version, tr, Flags(s.ignoreMalformed, false));
  }

  /** The whole of what the legacy doXContentBody writes, read by the option loop. */
  lemma ReadBackLegacyOptions(s: FieldTypeState, pathType: PathType, d: bool,
                              name: string, version: int, multiFieldKeys: set<string>, tr: TextReading)
    requires BuiltShape(s)
    requires "ignore_malformed" !in multiFieldKeys && "coerce" !in multiFieldKeys
    ensures ParseOptions(name, LegacyXContent(s, pathType, d), version, multiFieldKeys, tr)
      == Success(Parsed(ReadOptions(s, pathType, d, version),
                        PathLeft(pathType, d, version, multiFieldKeys)
                        + Field(d || s.ignoreMalformed, "ignore_malformed", BoolValue(s.ignoreMalformed))
                        + Field(d || s.coerce, "coerce", BoolValue(s.coerce))))
  {
    ReadBackOptions(s, pathType, d, name, version, multiFieldKeys, tr);
    ReadOtherField(name, XContent(s, pathType, d), d || s.coerce, "coerce", BoolValue(s.coerce), version, multiFieldKeys, tr,
                   Parsed(ReadOptions(s, pathType, d, version),
                          PathLeft(pathType, d, version, multiFieldKeys)
                          + Field(d || s.ignoreMalformed, "ignore_malformed", BoolValue(s.ignoreMalformed))));
  }

  /** Building from the options and flags read back gives the field type again. */
  lemma BuiltReadBack(s: FieldTypeState, pathType: PathType, d: bool, version: int, hasDocValues: bool)
    requires BuiltShape(s)
    ensures Built(FreshState(s.stored, hasDocValues).(ignoreMalformed := s.ignoreMalformed, coerce := s.coerce),
                  ReadOptions(s, pathType, d, version)) == s
  {
    SubFieldsReadBack(s, ReadOptions(s, pathType, d, version));
  }

  /**
    Writing a legacy field type out and parsing and building it again gives
    the same field type, as long as coerce implies ignore_malformed and no
    multi-field claims the two flags' keys.
  */
  lemma RoundTrip(s: FieldTypeState, pathType: PathType, includeDefaults: bool,
                  name: string, version: int, multiFieldKeys: set<string>, tr: TextReading, hasDocValues: bool)
    requires BuiltShape(s) && (s.coerce ==> s.ignoreMalformed)
    requires "ignore_malformed" !in multiFieldKeys && "coerce" !in multiFieldKeys
    ensures ParseAndBuild(name, LegacyXContent(s, pathType, includeDefaults), version, multiFieldKeys, tr, s.stored, hasDocValues)
      == Success(s)
  {
    ReadBackLegacyOptions(s, pathType, includeDefaults, name, version, multiFieldKeys, tr);
    ReadBackFlags(s, pathType, includeDefaults, version, multiFieldKeys, tr);
    BuiltReadBack(s, pathType, includeDefaults, version, hasDocValues);
  }

  /**
    A field parsed on an index created from 2.0.0 on survives being written
    out and parsed and built again.
  */
  lemma NewerIndexRoundTrip(name: string, node: seq<Entry>, version: int, multiFieldKeys: set<string>, tr: TextReading,
                            stored: bool, hasDocValues: bool, pathType: PathType, includeDefaults: bool)
    requires version >= V2_0_0
    requires "ignore_malformed" !in multiFieldKeys && "coerce" !in multiFieldKeys
    requires ParseAndBuild(name, node, version, multiFieldKeys, tr, stored, hasDocValues).Success?
    ensures ParseAndBuild(name, LegacyXContent(ParseAndBuild(name, node, version, multiFieldKeys, tr, stored, hasDocValues).value,
                                               pathType, includeDefaults),
                          version, multiFieldKeys, tr, stored, hasDocValues)
      == ParseAndBuild(name, node, version, multiFieldKeys, tr, stored, hasDocValues)
  {
    var s := ParseAndBuild(name, node, version, multiFieldKeys, tr, stored, hasDocValues).value;
    var rest := ParseOptions(name, node, version, multiFieldKeys, tr).value.remaining;
    CoerceImpliesIgnoreMalformed(Flags(false, false), rest, version, tr);
    ParseAndBuildShape(name, node, version, multiFieldKeys, tr, stored, hasDocValues);
    RoundTrip(s, pathType, includeDefaults, name, version, multiFieldKeys, tr, hasDocValues);
  }

  /**
    On an older index, normalize turns coerce on without ignore_malformed;
    written out, that field type reads back with ignore_malformed on.
  */
  lemma NormalizeBreaksRoundTrip(tr: TextReading)
    ensures ParseAndBuild("location", [Entry("normalize", BoolValue(true))], V2_0_0_Beta1, {}, tr, false, false)
      == Success(FreshState(false, false).(coerce := true))
    ensures ParseAndBuild("location", LegacyXContent(FreshState(false, false).(coerce := true), Full, false),
                          V2_0_0_Beta1, {}, tr, false, false)
      == Success(FreshState(false, false).(coerce := true, ignoreMalformed := true))
  {
    var e := Entry("normalize", BoolValue(true));
    assert ParseOptions("location", [], V2_0_0_Beta1, {}, tr) == Success(Parsed(DefaultOptions, []));
    ReadOtherField("location", [], true, "normalize", BoolValue(true), V2_0_0_Beta1, {}, tr, Parsed(DefaultOptions, []));
    assert [] + [e] == [e];
    assert [e][..0] == [];
    assert ParseLegacy(Flags(false, false), [e], V2_0_0_Beta1, tr) == LegacyParsed(Flags(false, true), []);
    var s := FreshState(false, false).(coerce := true);
    var c := Entry("coerce", BoolValue(true));
    assert XContent(s, Full, false) == [];
    assert LegacyXContent(s, Full, false) == [c];
    ReadOtherField("location", [], true, "coerce", BoolValue(true), V2_0_0_Beta1, {}, tr, Parsed(DefaultOptions, []));
    assert [] + [c] == [c];
    assert [c][..0] == [];
    assert ParseLegacy(Flags(false, false), [c], V2_0_0_Beta1, tr) == LegacyParsed(Flags(true, true), []);
  }

  // ---------------------------------------------------------------------
  // The doc-values field
  // ---------------------------------------------------------------------

  newtype byte = x: int | 0 <= x < 256

  const TwoTo64: int := 0x1_0000_0000_0000_0000

  /** The 64-bit pattern of a double, as an unsigned number. */
  newtype Bits64 = x: int | 0 <= x < 0x1_0000_0000_0000_0000

  /** A point by the bit patterns of its latitude and longitude. */
  datatype GeoPoint = GeoPoint(lat: Bits64, lon: Bits64)

  /** The n low bytes of v, least significant first. */
  function LittleEndian(v: nat, n: nat): (r: seq<byte>)
    ensures |r| == n
  {
    if n == 0 then [] else [(v % 256) as byte] + LittleEndian(v / 256, n - 1)
  }

  /** The number whose bytes, least significant first, are s. */
  function ReadLittleEndian(s: seq<byte>): (r: nat)
    ensures r < Pow256(|s|)
  {
    if s == [] then 0 else s[0] as int + 256 * ReadLittleEndian(s[1..])
  }

  function Pow256(n: nat): (r: nat)
    ensures r >= 1
  {
    if n == 0 then 1 else 256 * Pow256(n - 1)
  }

  lemma Pow256Eight()
    ensures Pow256(8) == TwoTo64
  {
  }

  /** Reading back the n bytes written for a number below 256^n gives the number. */
  lemma {:induction false} ReadWriteLittleEndian(v: nat, n: nat)
    requires v < Pow256(n)
    ensures ReadLittleEndian(LittleEndian(v, n)) == v
    decreases n
  {
    if n > 0 {
      var s := LittleEndian(v, n);
      assert s[1..] == LittleEndian(v / 256, n - 1);
      ReadWriteLittleEndian(v / 256, n - 1);
    }
  }

  /** The pattern read from eight bytes. */
  function ReadLong(s: seq<byte>): Bits64
    requires |s| == 8
  {
    Pow256Eight();
    ReadLittleEndian(s) as Bits64
  }

  /** The k-th point of a doc-values value: two 64-bit patterns in 16 bytes. */
  function PointAt(b: seq<byte>, k: nat): GeoPoint
    requires 16 * k + 16 <= |b|
  {
    GeoPoint(ReadLong(b[16 * k .. 16 * k + 8]), ReadLong(b[16 * k + 8 .. 16 * k + 16]))
  }

  /** ByteUtils.writeLongLE: the eight bytes of v, least significant first, at off. */
  method WriteLongLE(bytes: array<byte>, off: nat, v: Bits64)
    requires off + 8 <= bytes.Length
    modifies bytes
    ensures bytes[off .. off + 8] == LittleEndian(v as nat, 8)
    ensures bytes[..off] == old(bytes[..off]) && bytes[off + 8..] == old(bytes[off + 8..])
  {
    var rest: nat := v as nat;
    var i := 0;
    while i < 8
      invariant 0 <= i <= 8
      invariant bytes[off .. off + i] + LittleEndian(rest, 8 - i) == LittleEndian(v as nat, 8)
      invariant bytes[..off] == old(bytes[..off]) && bytes[off + 8..] == old(bytes[off + 8..])
    {
      bytes[off + i] := (rest % 256) as byte;
      assert bytes[off .. off + i + 1] == bytes[off .. off + i] + [(rest % 256) as byte];
      rest := rest / 256;
      i := i + 1;
    }
  }

  /** Two sequences that agree up to m agree on every slice below m. */
  lemma SliceBelow(a: seq<byte>, b: seq<byte>, m: nat, i: nat, j: nat)
    requires m <= |a| && m <= |b| && a[..m] == b[..m] && i <= j <= m
    ensures a[i..j] == b[i..j]
  {
    assert a[i..j] == a[..m][i..j];
    assert b[i..j] == b[..m][i..j];
  }

  /** Two values that agree on their first m bytes agree on every point stored below m. */
  lemma PointsBelow(a: seq<byte>, b: seq<byte>, m: nat, k: nat)
    requires m <= |a| && m <= |b| && a[..m] == b[..m] && 16 * k + 16 <= m
    ensures PointAt(a, k) == PointAt(b, k)
  {
    SliceBelow(a, b, m, 16 * k, 16 * k + 8);
    SliceBelow(a, b, m, 16 * k + 8, 16 * k + 16);
  }

  /** A chunk holding the little-endian bytes of a point's two patterns decodes to that point. */
  lemma ChunkReads(b: seq<byte>, k: nat, point: GeoPoint)
    requires 16 * k + 16 <= |b|
    requires b[16 * k .. 16 * k + 8] == LittleEndian(point.lat as nat, 8)
    requires b[16 * k + 8 .. 16 * k + 16] == LittleEndian(point.lon as nat, 8)
    ensures PointAt(b, k) == point
  {
    Pow256Eight();
    ReadWriteLittleEndian(point.lat as nat, 8);
    ReadWriteLittleEndian(point.lon as nat, 8);
  }

  /** The first points of a value, chunk by chunk, are the given ones. */
  predicate Encodes(b: seq<byte>, written: seq<GeoPoint>) {
    16 * |written| <= |b| && forall k :: 0 <= k < |written| ==> PointAt(b, k) == written[k]
  }

  /** Writing one more point after the encoded ones, and nothing before them, encodes one point more. */
  lemma EncodesExtend(before: seq<byte>, after: seq<byte>, written: seq<GeoPoint>, point: GeoPoint)
    requires Encodes(before, written) && |after| == |before| && 16 * |written| + 16 <= |after|
    requires after[..16 * |written|] == before[..16 * |written|]
    requires PointAt(after, |written|) == point
    ensures Encodes(after, written + [point])
  {
    forall k | 0 <= k < |written| + 1
      ensures PointAt(after, k) == (written + [point])[k]
    {
      if k < |written| {
        PointsBelow(after, before, 16 * |written|, k);
      }
    }
  }

  /** The two writeDoubleLE calls for the k-th point: it reads back from its chunk, the bytes before it stay. */
  method WritePoint(bytes: array<byte>, k: nat, point: GeoPoint)
    requires 16 * k + 16 <= bytes.Length
    modifies bytes
    ensures PointAt(bytes[..], k) == point
    ensures bytes[..16 * k] == old(bytes[..16 * k])
  {
    var off := 16 * k;
    WriteLongLE(bytes, off, point.lat);
    ghost var mid := bytes[..];
    assert mid[off .. off + 8] == LittleEndian(point.lat as nat, 8);
    WriteLongLE(bytes, off + 8, point.lon);
    assert bytes[..][..off + 8] == mid[..off + 8];
    SliceBelow(bytes[..], mid, off + 8, off, off + 8);
    assert bytes[..][off + 8 .. off + 16] == LittleEndian(point.lon as nat, 8);
    ChunkReads(bytes[..], k, point);
  }

  /**
    CustomGeoPointDocValuesField: the distinct points of a document. Points
    are equal when their bit patterns are.
  */
  class CustomGeoPointDocValuesField {
    const name: string
    var points: set<GeoPoint>

    constructor (name: string, lat: Bits64, lon: Bits64)
      ensures this.name == name && points == {GeoPoint(lat, lon)}
    {
      this.name := name;
      points := {GeoPoint(lat, lon)};
    }

    method Add(lat: Bits64, lon: Bits64)
      modifies this
      ensures points == old(points) + {GeoPoint(lat, lon)}
    {
      points := points + {GeoPoint(lat, lon)};
    }

    /**
      binaryValue: 16 bytes per point, latitude then longitude, each little
      endian, in the set's iteration order. Every 16-byte chunk decodes to a
      point of the field and every point is some chunk.
    */
    method BinaryValue() returns (bytes: array<byte>)
      ensures fresh(bytes) && bytes.Length == 16 * |points|
      ensures forall k :: 0 <= k < |points| ==> PointAt(bytes[..], k) in points
      ensures forall p :: p in points ==> exists k :: 0 <= k < |points| && PointAt(bytes[..], k) == p
    {
      bytes := new byte[16 * |points|];
      var rest := points;
      var n := 0;
      ghost var written: seq<GeoPoint> := [];
      while rest != {}
        invariant rest <= points && n == |written| && n + |rest| == |points|
        invariant forall p :: p in written <==> p in points && p !in rest
        invariant Encodes(bytes[..], written)
        decreases |rest|
      {
        var point :| point in rest;
        ghost var before := bytes[..];
        WritePoint(bytes, n, point);
        EncodesExtend(before, bytes[..], written, point);
        written := written + [point];
        rest := rest - {point};
        n := n + 1;
      }
      forall p | p in points
        ensures exists k :: 0 <= k < |points| && PointAt(bytes[..], k) == p
      {
        var k :| 0 <= k < |written| && written[k] == p;
        assert PointAt(bytes[..], k) == p;
      }
    }
  }
}
