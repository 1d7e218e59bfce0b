/** Model of `extract_address_components` from the place-details script:
    a single pass over the address components of a Google Places result that
    folds them into the five optional fields
    (street, city, state, zip code, country).

    The pure fold `Extract` is the specification; the method
    `ExtractAddressComponents` is the loop over five accumulators that the
    script runs, proved equal to the fold. */
module AddressComponents {

  datatype Option<+T> = None | Some(value: T)

  /** One entry of `address_components`: both keys may be absent from the JSON object. */
  datatype Component = Component(longName: Option<string>, types: Option<seq<string>>)

  /** The five-tuple the function returns. `None` stands for Python's `None`. */
  datatype Address = Address(
    street: Option<string>,
    city: Option<string>,
    state: Option<string>,
    zipCode: Option<string>,
    country: Option<string>)

  /** The five output fields, used to speak about "which field a component writes". */
  datatype Field = StreetField | CityField | StateField | ZipCodeField | CountryField

  /** The address types the extraction recognises. */
  datatype AddressType =
    | StreetNumber | Route | Locality | AdministrativeAreaLevel1 | PostalCode | Country
  {
    /** The string Google uses for this type in a component's `types` list. */
    function Name(): string {
      match this
      case StreetNumber => "street_number"
      case Route => "route"
      case Locality => "locality"
      case AdministrativeAreaLevel1 => "administrative_area_level_1"
      case PostalCode => "postal_code"
      case Country => "country"
    }

    /** Position in the precedence order of the `if`/`elif` chain (0 is tested first). */
    function Rank(): nat {
      match this
      case StreetNumber => 0
      case Route => 1
      case Locality => 2
      case AdministrativeAreaLevel1 => 3
      case PostalCode => 4
      case Country => 5
    }

    /** The output field that a component of this type writes. */
    function Target(): Field {
      match this
      case StreetNumber => StreetField
      case Route => StreetField
      case Locality => CityField
      case AdministrativeAreaLevel1 => StateField
      case PostalCode => ZipCodeField
      case Country => CountryField
    }
  }

  function Get(a: Address, f: Field): Option<string> {
    match f
    case StreetField => a.street
    case CityField => a.city
    case StateField => a.state
    case ZipCodeField => a.zipCode
    case CountryField => a.country
  }

  /** All five outputs unset, as initialised before the loop. */
  const Unset: Address := Address(None, None, None, None, None)

  /** `component.get('types', [])` */
  function TypesOf(c: Component): seq<string> {
    match c.types
    case Some(ts) => ts
    case None => []
  }

  /** `component.get('long_name', '')` */
  function LongNameOf(c: Component): string {
    match c.longName
    case Some(n) => n
    case None => ""
  }

  /** Python truthiness of the `street` accumulator: `None` and `""` are false. */
  predicate Truthy(s: Option<string>) {
    s.Some? && s.value != ""
  }

  /** The `if`/`elif` chain: the first recognised type, in precedence order,
      that occurs in `types`; `None` when no branch is taken. The contract
      characterises the result as the minimum-rank type present. */
  function Classify(types: seq<string>): (r: Option<AddressType>)
    ensures r.Some? ==> r.value.Name() in types
    ensures r.Some? ==> forall t: AddressType :: t.Rank() < r.value.Rank() ==> t.Name() !in types
    ensures r.None? ==> forall t: AddressType :: t.Name() !in types
  {
    if "street_number" in types then Some(StreetNumber)
    else if "route" in types then Some(Route)
    else if "locality" in types then Some(Locality)
    else if "administrative_area_level_1" in types then Some(AdministrativeAreaLevel1)
    else if "postal_code" in types then Some(PostalCode)
    else if "country" in types then Some(Country)
    else None
  }

  /** The field a component writes, if any. */
  function Writes(c: Component): Option<Field> {
    match Classify(TypesOf(c))
    case Some(t) => Some(t.Target())
    case None => None
  }

  /** The value the route branch gives `street`: the route is appended after a
      space when `street` is truthy, and stands alone otherwise. */
  function JoinRoute(street: Option<string>, name: string): string {
    if Truthy(street) then street.value + " " + name else name
  }

  /** One iteration of the loop body on the accumulated five-tuple. */
  function Step(acc: Address, c: Component): Address {
    var name := LongNameOf(c);
    match Classify(TypesOf(c))
    case None => acc
    case Some(StreetNumber) => acc.(street := Some(name))
    case Some(Route) => acc.(street := Some(JoinRoute(acc.street, name)))
    case Some(Locality) => acc.(city := Some(name))
    case Some(AdministrativeAreaLevel1) => acc.(state := Some(name))
    case Some(PostalCode) => acc.(zipCode := Some(name))
    case Some(Country) => acc.(country := Some(name))
  }

  /** Left fold of `Step` over `cs`, starting from `acc`. */
  function Run(acc: Address, cs: seq<Component>): Address
    decreases |cs|
  {
    if cs == [] then acc else Step(Run(acc, cs[..|cs| - 1]), cs[|cs| - 1])
  }

  /** What `extract_address_components` returns for `cs`. */
  function Extract(cs: seq<Component>): Address {
    Run(Unset, cs)
  }

  /** The loop the script runs: five accumulators, reassigned per component
      by the `if`/`elif` chain. Proved equal to the fold `Extract`. */
  method ExtractAddressComponents(components: seq<Component>)
    returns (street: Option<string>, city: Option<string>, state: Option<string>,
             zipCode: Option<string>, country: Option<string>)
    ensures Address(street, city, state, zipCode, country) == Extract(components)
  {
    street, city, state, zipCode, country := None, None, None, None, None;
    for i := 0 to |components|
      invariant Address(street, city, state, zipCode, country) == Extract(components[..i])
    {
      var component := components[i];
      var types := if component.types.Some? then component.types.value else [];
      var longName := if component.longName.Some? then component.longName.value else "";
      if "street_number" in types {
        street := Some(longName);
      } else if "route" in types {
        street := if street.Some? && street.value != "" then Some(street.value + " " + longName)
                  else Some(longName);
      } else if "locality" in types {
        city := Some(longName);
      } else if "administrative_area_level_1" in types {
        state := Some(longName);
      } else if "postal_code" in types {
        zipCode := Some(longName);
      } else if "country" in types {
        country := Some(longName);
      }
      assert components[..i + 1][..i] == components[..i];
    }
    assert components[..|components|] == components;
  }

  // ---------------------------------------------------------------------
  // Properties of one step

  /** Each component changes at most one output field: the one its first
      matching type targets. A component with no recognised type changes
      nothing; any other changes only its target field, and for every target
      other than the street it sets that field to its `long_name`. */
  lemma StepWritesOnlyTarget(acc: Address, c: Component)
    ensures forall f: Field :: Get(Step(acc, c), f) != Get(acc, f) ==> Writes(c) == Some(f)
    ensures Writes(c).None? ==> Step(acc, c) == acc
    ensures Writes(c).Some? && Writes(c) != Some(StreetField) ==>
              Get(Step(acc, c), Writes(c).value) == Some(LongNameOf(c))
    ensures Writes(c).Some? ==> Get(Step(acc, c), Writes(c).value).Some?
  {
  }

  /** A `street_number` component replaces the street with its `long_name`,
      whatever was accumulated before, including a street built from a route. */
  lemma StepStreetNumber(acc: Address, c: Component)
    requires "street_number" in TypesOf(c)
    ensures Step(acc, c) == acc.(street := Some(LongNameOf(c)))
  {
  }

  /** A `route` component without `street_number` appends to a non-empty
      street after a space, and otherwise becomes the street alone. */
  lemma StepRoute(acc: Address, c: Component)
    requires "route" in TypesOf(c) && "street_number" !in TypesOf(c)
    ensures Truthy(acc.street) ==>
              Step(acc, c) == acc.(street := Some(acc.street.value + " " + LongNameOf(c)))
    ensures !Truthy(acc.street) ==> Step(acc, c) == acc.(street := Some(LongNameOf(c)))
  {
  }

  /** A component without a `types` key is ignored. */
  lemma StepMissingTypes(acc: Address, name: Option<string>)
    ensures Step(acc, Component(name, None)) == acc
  {
  }

  /** A component without a `long_name` key behaves exactly as one whose
      `long_name` is the empty string. */
  lemma StepMissingLongName(acc: Address, types: Option<seq<string>>)
    ensures Step(acc, Component(None, types)) == Step(acc, Component(Some(""), types))
    ensures Writes(Component(None, types)).Some? && Writes(Component(None, types)) != Some(StreetField) ==>
              Get(Step(acc, Component(None, types)), Writes(Component(None, types)).value) == Some("")
  {
  }

  // ---------------------------------------------------------------------
  // Properties of the whole fold

  /** Running over a concatenation is running over each part in turn. */
  lemma {:induction false} RunAppend(acc: Address, cs: seq<Component>, ds: seq<Component>)
    ensures Run(acc, cs + ds) == Run(Run(acc, cs), ds)
    decreases |ds|
  {
    if ds == [] {
      assert cs + ds == cs;
    } else {
      var n := |ds|;
      assert (cs + ds)[..|cs + ds| - 1] == cs + ds[..n - 1];
      assert (cs + ds)[|cs + ds| - 1] == ds[n - 1];
      RunAppend(acc, cs, ds[..n - 1]);
    }
  }

  /** A field is unset after the fold exactly when no component writes it. */
  lemma {:induction false} UnsetIffNeverWritten(cs: seq<Component>, f: Field)
    ensures Get(Extract(cs), f).None? <==> forall k :: 0 <= k < |cs| ==> Writes(cs[k]) != Some(f)
    decreases |cs|
  {
    if cs != [] {
      var n := |cs|;
      var p := cs[..n - 1];
      UnsetIffNeverWritten(p, f);
      StepWritesOnlyTarget(Extract(p), cs[n - 1]);
      assert forall k :: 0 <= k < n - 1 ==> p[k] == cs[k];
      if Writes(cs[n - 1]) == Some(f) {
        assert Get(Extract(cs), f).Some?;
      }
    }
  }

  /** For city, state, zip code and country the last component that writes the
      field wins: the field holds that component's `long_name`. */
  lemma {:induction false} LastWriterWins(cs: seq<Component>, f: Field, k: nat)
    requires f != StreetField
    requires k < |cs| && Writes(cs[k]) == Some(f)
    requires forall j :: k < j < |cs| ==> Writes(cs[j]) != Some(f)
    ensures Get(Extract(cs), f) == Some(LongNameOf(cs[k]))
    decreases |cs|
  {
    var n := |cs|;
    var p := cs[..n - 1];
    StepWritesOnlyTarget(Extract(p), cs[n - 1]);
    if k < n - 1 {
      assert Writes(cs[n - 1]) != Some(f);
      assert p[k] == cs[k];
      LastWriterWins(p, f, k);
    }
  }

  /** When the last component writing the street is a `street_number`, the
      street is exactly its `long_name`: routes seen before it are discarded. */
  lemma {:induction false} LastStreetNumberWins(cs: seq<Component>, k: nat)
    requires k < |cs| && Classify(TypesOf(cs[k])) == Some(StreetNumber)
    requires forall j :: k < j < |cs| ==> Writes(cs[j]) != Some(StreetField)
    ensures Extract(cs).street == Some(LongNameOf(cs[k]))
    decreases |cs|
  {
    var n := |cs|;
    var p := cs[..n - 1];
    StepWritesOnlyTarget(Extract(p), cs[n - 1]);
    if k < n - 1 {
      assert Get(Step(Extract(p), cs[n - 1]), StreetField) == Get(Extract(p), StreetField);
      assert p[k] == cs[k];
      LastStreetNumberWins(p, k);
    }
  }

  /** The components that take a branch of the `if`/`elif` chain, in order. */
  function Recognised(cs: seq<Component>): (r: seq<Component>)
    ensures |r| <= |cs|
    ensures forall k :: 0 <= k < |r| ==> Writes(r[k]).Some?
    decreases |cs|
  {
    if cs == [] then []
    else if Writes(cs[|cs| - 1]).Some? then Recognised(cs[..|cs| - 1]) + [cs[|cs| - 1]]
    else Recognised(cs[..|cs| - 1])
  }

  /** Components with no recognised type have no effect anywhere in the
      list: dropping them all leaves the result unchanged. */
  lemma {:induction false} UnrecognisedIgnored(cs: seq<Component>)
    ensures Extract(Recognised(cs)) == Extract(cs)
    decreases |cs|
  {
    if cs != [] {
      var n := |cs|;
      var p := cs[..n - 1];
      UnrecognisedIgnored(p);
      StepWritesOnlyTarget(Extract(p), cs[n - 1]);
      if Writes(cs[n - 1]).Some? {
        var r := Recognised(p) + [cs[n - 1]];
        assert r[..|r| - 1] == Recognised(p);
      }
    }
  }

  /** Appending one unrecognised component leaves every field unchanged. */
  lemma ExtractIgnoresUnrecognised(cs: seq<Component>, c: Component)
    requires forall t: AddressType :: t.Name() !in TypesOf(c)
    ensures Extract(cs + [c]) == Extract(cs)
  {
  }

  // ---------------------------------------------------------------------
  // Worked examples

  /** An empty list yields five unset fields. */
  lemma ExtractEmpty()
    ensures Extract([]) == Address(None, None, None, None, None)
  {
  }

  /** A street number followed by a route gives "<number> <route>". */
  lemma ExampleNumberThenRoute()
    ensures Extract([Component(Some("123"), Some(["street_number"])),
                     Component(Some("Main St"), Some(["route"]))])
            == Address(Some("123 Main St"), None, None, None, None)
  {
    var cs := [Component(Some("123"), Some(["street_number"])),
               Component(Some("Main St"), Some(["route"]))];
    assert cs[..1] == [cs[0]];
    assert cs[..1][..0] == [];
    assert Run(Unset, cs[..1]) == Step(Unset, cs[0]);
    assert Classify(["street_number"]) == Some(StreetNumber);
    assert Classify(["route"]) == Some(Route) by {
      assert "street_number" != "route" by { assert "street_number"[0] != "route"[0]; }
    }
    assert "123" + " " + "Main St" == "123 Main St";
  }

  /** A street number with no `long_name` leaves `street` as the empty
      string, which a later route does not prefix with a space. */
  lemma ExampleNamelessNumberThenRoute()
    ensures Extract([Component(None, Some(["street_number"]))]).street == Some("")
    ensures Extract([Component(None, Some(["street_number"])),
                     Component(Some("Main St"), Some(["route"]))]).street == Some("Main St")
  {
  }

  /** A component typed both `locality` and `country` sets only the city. */
  lemma ExampleLocalityBeforeCountry()
    ensures Extract([Component(Some("Paris"), Some(["country", "locality"]))])
            == Address(None, Some("Paris"), None, None, None)
  {
  }
}
