/**
  Schema-version gatekeeping, validation and upgrade of benchmark specifications
  (svcb/svcb/schema.py).

  Structural validation against the schema document is a foreign library; each
  schema carries it as a function from a specification to an optional violation.
 */
module Schema {
  import opened Results
  import opened Documents
  import opened Sequences

  /** One step of a JSON-schema path: a property name or an array index. */
  datatype PathElement = Key(name: string) | Index(index: int)

  /** What structural validation reports about a document that does not conform. */
  datatype Violation = Violation(message: string, absoluteSchemaPath: seq<PathElement>)

  /**
    The schema document: its `__version__` and the structural check it stands for
    (`jsonschema.validate` against it).
   */
  datatype SchemaDoc = SchemaDoc(version: int, violation: Dict -> Option<Violation>)

  /**
    `BenchmarkSpecificationValidationError`: a message, and the schema path for
    failures of structural validation.
   */
  datatype ValidationError = ValidationError(message: string, absoluteSchemaPath: Option<seq<PathElement>>)

  // ---------------------------------------------------------------------------
  // Python's `str` of integers and booleans.
  // ---------------------------------------------------------------------------

  predicate IsDigit(c: char)
  {
    '0' <= c <= '9'
  }

  function DigitChar(d: nat): (c: char)
    requires d < 10
    ensures IsDigit(c) && c as int - '0' as int == d
  {
    ('0' as int + d) as char
  }

  /** The decimal digits of `n`, most significant first, without leading zeros. */
  function NatToDecimal(n: nat): (r: string)
    ensures |r| >= 1
    ensures forall i :: 0 <= i < |r| ==> IsDigit(r[i])
    ensures r[0] == '0' ==> n == 0 && r == "0"
    decreases n
  {
    if n < 10 then [DigitChar(n)] else NatToDecimal(n / 10) + [DigitChar(n % 10)]
  }

  /** The number a string of decimal digits denotes. */
  function DecimalValue(s: string): int
  {
    if |s| == 0 then 0 else DecimalValue(s[..|s| - 1]) * 10 + (s[|s| - 1] as int - '0' as int)
  }

  /** Reading the digits back gives the number. */
  lemma {:induction false} DecimalRoundTrip(n: nat)
    ensures DecimalValue(NatToDecimal(n)) == n
  {
    if n >= 10 {
      var r := NatToDecimal(n);
      assert r[..|r| - 1] == NatToDecimal(n / 10);
      DecimalRoundTrip(n / 10);
    }
  }

  /** `str(i)` for an int. */
  function IntToString(i: int): string
  {
    if i < 0 then "-" + NatToDecimal(-i) else NatToDecimal(i)
  }

  /** `str(v)` for a Python int, where a bool prints as `True` or `False`. */
  function IntValueToString(v: Value): string
  {
    match v
    case Bool(b) => if b then "True" else "False"
    case Int(i) => IntToString(i)
    case _ => ""
  }

  // ---------------------------------------------------------------------------
  // Validation.
  // ---------------------------------------------------------------------------

  /** `isinstance(v, int)`: bools are ints in Python. */
  predicate IsPythonInt(v: Value)
  {
    v.Int? || v.Bool?
  }

  /** The integer value of a Python int; `True` is 1 and `False` is 0. */
  function IntValue(v: Value): int
    requires IsPythonInt(v)
  {
    if v.Bool? then (if v.b then 1 else 0) else v.i
  }

  /** The `schema_version` a specification declares, when it declares an integer. */
  function DeclaredVersion(spec: Dict): Option<int>
  {
    if HasKey(spec, "schema_version") && IsPythonInt(Get(spec, "schema_version").value) then
      Some(IntValue(Get(spec, "schema_version").value))
    else
      None
  }

  const MissingVersionMessage := "'schema_version' is missing"
  const NotIntegerMessage := "'schema_version' should map to an integer"
  const NegativeMessage := "'schema_version' should map to an integer >= 0"

  const MismatchPrefix := "Schema version used by benchmark ("
  const MismatchMiddle := ") does not match the currently support schema ("

  function MismatchMessage(declared: Value, supported: int): string
  {
    MismatchPrefix + IntValueToString(declared) + (MismatchMiddle + IntToString(supported) + ")")
  }

  /**
    `validateBenchmarkSpecification`: the version checks in order (present, an
    integer, not negative, equal to the schema's), and only then the structural check.
   */
  function Validate(spec: Dict, schema: SchemaDoc): Outcome<ValidationError>
  {
    if !HasKey(spec, "schema_version") then
      Fail(ValidationError(MissingVersionMessage, None))
    else
      var declared := Get(spec, "schema_version").value;
      if !IsPythonInt(declared) then
        Fail(ValidationError(NotIntegerMessage, None))
      else if !(IntValue(declared) >= 0) then
        Fail(ValidationError(NegativeMessage, None))
      else if IntValue(declared) != schema.version then
        Fail(ValidationError(MismatchMessage(declared, schema.version), None))
      else
        match schema.violation(spec)
        case Some(v) => Fail(ValidationError(v.message, Some(v.absoluteSchemaPath)))
        case None => Pass
  }

  /** A specification passes exactly when it declares the schema's (non-negative) version and conforms. */
  lemma ValidatePassIff(spec: Dict, schema: SchemaDoc)
    ensures Validate(spec, schema) == Pass <==>
      DeclaredVersion(spec) == Some(schema.version) && schema.version >= 0 && schema.violation(spec).None?
  {
  }

  /**
    Which version check fails is decided by the declared version alone, in order,
    and each failure has its own message and no schema path.
   */
  lemma VersionCheckOrder(spec: Dict, schema: SchemaDoc)
    ensures !HasKey(spec, "schema_version") ==>
      Validate(spec, schema) == Fail(ValidationError(MissingVersionMessage, None))
    ensures HasKey(spec, "schema_version") && !IsPythonInt(Get(spec, "schema_version").value) ==>
      Validate(spec, schema) == Fail(ValidationError(NotIntegerMessage, None))
    ensures DeclaredVersion(spec).Some? && DeclaredVersion(spec).value < 0 ==>
      Validate(spec, schema) == Fail(ValidationError(NegativeMessage, None))
    ensures DeclaredVersion(spec).Some? && DeclaredVersion(spec).value >= 0 && DeclaredVersion(spec).value != schema.version ==>
      Validate(spec, schema) == Fail(ValidationError(MismatchMessage(Get(spec, "schema_version").value, schema.version), None))
  {
  }

  /**
    Structural validation runs only after every version check has passed: a
    specification whose version is wrong gets the same verdict from every schema
    of that version, whatever the schema's structure, and that verdict has no path.
   */
  lemma VersionChecksPrecedeStructure(spec: Dict, s1: SchemaDoc, s2: SchemaDoc)
    requires s1.version == s2.version
    requires DeclaredVersion(spec) != Some(s1.version) || s1.version < 0
    ensures Validate(spec, s1) == Validate(spec, s2)
    ensures Validate(spec, s1).Fail? && Validate(spec, s1).error.absoluteSchemaPath.None?
  {
  }

  /** An error with a schema path comes from structural validation and carries its message and path. */
  lemma StructuralFailure(spec: Dict, schema: SchemaDoc)
    ensures (Validate(spec, schema).Fail? && Validate(spec, schema).error.absoluteSchemaPath.Some?) <==>
      DeclaredVersion(spec) == Some(schema.version) && schema.version >= 0 && schema.violation(spec).Some?
    ensures DeclaredVersion(spec) == Some(schema.version) && schema.version >= 0 && schema.violation(spec).Some? ==>
      var v := schema.violation(spec).value;
      Validate(spec, schema) == Fail(ValidationError(v.message, Some(v.absoluteSchemaPath)))
  {
  }

  /**
    `m` reads as `a`, a numeral of length `|dx|` denoting `x`, `c`, a numeral of
    length `|dy|` denoting `y`, and `e`, in that order.
   */
  ghost predicate ReadsAs(m: string, a: string, dx: string, c: string, dy: string, e: string, x: int, y: int) {
    var e1 := |a|;
    var e2 := e1 + |dx|;
    var e3 := e2 + |c|;
    var e4 := e3 + |dy|;
    && |m| == e4 + |e|
    && m[..e1] == a && DecimalValue(m[e1..e2]) == x && m[e2..e3] == c && DecimalValue(m[e3..e4]) == y && m[e4..] == e
  }

  /** Two numerals between three strings can each be sliced out and read back. */
  lemma ReadBack(m: string, a: string, dx: string, c: string, dy: string, e: string, x: int, y: int)
    requires m == a + dx + (c + dy + e)
    requires DecimalValue(dx) == x && DecimalValue(dy) == y
    ensures ReadsAs(m, a, dx, c, dy, e, x, y)
  {
    FivePieces(a, dx, c, dy, e);
  }

  /**
    The mismatch message carries both versions: the declared one between the prefix
    and the middle, the schema's between the middle and the closing parenthesis.
   */
  lemma MismatchCarriesVersions(declared: nat, supported: nat)
    ensures ReadsAs(MismatchMessage(Int(declared), supported), MismatchPrefix, NatToDecimal(declared),
                    MismatchMiddle, NatToDecimal(supported), ")", declared, supported)
  {
    DecimalRoundTrip(declared);
    DecimalRoundTrip(supported);
    ReadBack(MismatchMessage(Int(declared), supported), MismatchPrefix, NatToDecimal(declared),
             MismatchMiddle, NatToDecimal(supported), ")", declared, supported);
  }

  // ---------------------------------------------------------------------------
  // Upgrade.
  // ---------------------------------------------------------------------------

  datatype UpgradeError =
    | CannotDowngrade  // 'Cannot downgrade benchmark specification to older schema'
    | NotImplemented   // no migration between schema versions exists

  /**
    `upgradeBenchmarkSpeciationToVersion`: the caller guarantees an integer,
    non-negative declared version and a non-negative target. The result is a copy of
    the specification; being a value it never aliases or changes the input.
   */
  function UpgradeToVersion(spec: Dict, target: int): Result<Dict, UpgradeError>
    requires DeclaredVersion(spec).Some? && DeclaredVersion(spec).value >= 0 && target >= 0
  {
    var newSpec := spec;
    var version := DeclaredVersion(spec).value;
    if version == target then Ok(newSpec)
    else if version > target then Err(CannotDowngrade)
    else Err(NotImplemented)
  }

  /**
    The three outcomes: the same version gives back the specification, already at
    the target; a newer document cannot be downgraded; an older one cannot be
    migrated. Nothing ever changes a specification's version.
   */
  lemma UpgradeOutcomes(spec: Dict, target: int)
    requires DeclaredVersion(spec).Some? && DeclaredVersion(spec).value >= 0 && target >= 0
    ensures UpgradeToVersion(spec, target).Ok? <==> DeclaredVersion(spec) == Some(target)
    ensures UpgradeToVersion(spec, target).Ok? ==>
      UpgradeToVersion(spec, target).value == spec && DeclaredVersion(UpgradeToVersion(spec, target).value) == Some(target)
    ensures UpgradeToVersion(spec, target) == Err(CannotDowngrade) <==> DeclaredVersion(spec).value > target
    ensures UpgradeToVersion(spec, target) == Err(NotImplemented) <==> DeclaredVersion(spec).value < target
  {
  }

  datatype SchemaError = Upgrade(reason: UpgradeError) | Invalid(error: ValidationError)

  /**
    `upgradeBenchmarkSpecificationToSchema`: upgrade to the schema's version, then
    validate the result against the schema.
   */
  function UpgradeToSchema(spec: Dict, schema: SchemaDoc): Result<Dict, SchemaError>
    requires HasKey(spec, "schema_version")
    requires DeclaredVersion(spec).Some? && DeclaredVersion(spec).value >= 0 && schema.version >= 0
  {
    match UpgradeToVersion(spec, schema.version)
    case Err(reason) => Err(Upgrade(reason))
    case Ok(newSpec) =>
      match Validate(newSpec, schema)
      case Fail(e) => Err(Invalid(e))
      case Pass => Ok(newSpec)
  }

  /**
    Upgrading to a schema either yields the specification itself, which then passes
    validation against that schema, or fails. A validation failure after a
    successful upgrade can only be structural.
   */
  lemma UpgradeToSchemaSound(spec: Dict, schema: SchemaDoc)
    requires HasKey(spec, "schema_version")
    requires DeclaredVersion(spec).Some? && DeclaredVersion(spec).value >= 0 && schema.version >= 0
    ensures UpgradeToSchema(spec, schema).Ok? ==>
      UpgradeToSchema(spec, schema).value == spec && Validate(UpgradeToSchema(spec, schema).value, schema) == Pass
    ensures UpgradeToSchema(spec, schema).Ok? <==> Validate(spec, schema) == Pass
    ensures UpgradeToSchema(spec, schema).Err? && UpgradeToSchema(spec, schema).error.Invalid? ==>
      UpgradeToSchema(spec, schema).error.error.absoluteSchemaPath.Some?
  {
    UpgradeOutcomes(spec, schema.version);
    ValidatePassIff(spec, schema);
    StructuralFailure(spec, schema);
  }
}
