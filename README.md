# Address-component extraction (Google Places place details)

This project models `extract_address_components`, the one piece of logic in
the place-details script of the repository. The function takes the
`address_components` list of a Google Places place-details result and folds
it, in one pass, into a five-tuple `(street, city, state, zip_code, country)`.
Each field is either `None` or a string.

The model lives in one module, `AddressComponents` (`address_components.dfy`):

- `Component` is one entry of the list. Both keys may be missing, so both are
  optional: `longName: Option<string>` and `types: Option<seq<string>>`.
  `TypesOf` and `LongNameOf` give the script's defaults, `[]` and `""`.
- `Address` is the returned five-tuple, with `Option<string>` fields.
- `Classify` is the `if`/`elif` chain. It returns the first recognised type
  in the order `street_number`, `route`, `locality`,
  `administrative_area_level_1`, `postal_code`, `country`, or `None`.
- `Step` is one loop iteration. `Run` and `Extract` are the pure left fold
  over the list and serve as the specification.
- `ExtractAddressComponents` is the loop as the script writes it: five
  accumulators, reassigned per component. It is proved equal to `Extract`.
- `Truthy` models Python truthiness of the `street` accumulator. `None` and
  `""` are both false, so a route after an empty street is not prefixed
  with a space.

The code uses an `elif` chain, so each component takes at most one branch.
An independent check per type, as a prose description of the function might
suggest, would behave differently. The model follows the code: a component
typed both `locality` and `country` sets only the city.

## Model

| member | source | states |
|---|---|---|
| `AddressComponents.Classify` | 2_fetch_place_based_on_place_id/fetch_place.py:45-56 | The branch taken is the recognised type of lowest precedence rank present in `types`; no branch is taken exactly when none of the six names occurs |
| `AddressComponents.ExtractAddressComponents` | 2_fetch_place_based_on_place_id/fetch_place.py:38-58 | The loop over five accumulators returns exactly the fold `Extract` of the whole list, for every list (the function is total) |
| `AddressComponents.StepWritesOnlyTarget` | 2_fetch_place_based_on_place_id/fetch_place.py:45-56 | One component changes at most one field, the target of its first matching type; an unrecognised component changes nothing; a city, state, zip or country branch sets that field to the component's `long_name`; a taken branch always leaves its field set |
| `AddressComponents.StepStreetNumber` | 2_fetch_place_based_on_place_id/fetch_place.py:45-46 | A `street_number` component sets `street` to its `long_name`, replacing any earlier street (also one built from a route), and changes nothing else |
| `AddressComponents.StepRoute` | 2_fetch_place_based_on_place_id/fetch_place.py:47-48 | A `route` component without `street_number` makes `street` the old street, a space and its `long_name` when the old street is a non-empty string, and just its `long_name` when the old street is `None` or `""`; nothing else changes |
| `AddressComponents.StepMissingTypes` | 2_fetch_place_based_on_place_id/fetch_place.py:42 | A component without a `types` key is ignored |
| `AddressComponents.StepMissingLongName` | 2_fetch_place_based_on_place_id/fetch_place.py:43 | A component without `long_name` behaves as one whose `long_name` is `""`, so a field it writes becomes `""` and not `None` |
| `AddressComponents.RunAppend` | 2_fetch_place_based_on_place_id/fetch_place.py:41-56 | Processing a concatenation of two lists is processing the first and then the second, starting from the first's result |
| `AddressComponents.UnsetIffNeverWritten` | 2_fetch_place_based_on_place_id/fetch_place.py:39-58 | Each of the five fields is `None` in the result exactly when no component of the list takes a branch writing it |
| `AddressComponents.LastWriterWins` | 2_fetch_place_based_on_place_id/fetch_place.py:49-56 | For city, state, zip code and country, the last component whose branch writes the field determines it: the field is that component's `long_name` |
| `AddressComponents.LastStreetNumberWins` | 2_fetch_place_based_on_place_id/fetch_place.py:45-48 | When the last component writing the street is a `street_number`, the street is exactly its `long_name`, whatever routes came before |
| `AddressComponents.UnrecognisedIgnored` | 2_fetch_place_based_on_place_id/fetch_place.py:41-56 | Removing every component that takes no branch leaves the result unchanged |
| `AddressComponents.ExtractIgnoresUnrecognised` | 2_fetch_place_based_on_place_id/fetch_place.py:45-56 | Appending a component with none of the six recognised types leaves all five fields unchanged |
| `AddressComponents.ExtractEmpty` | 2_fetch_place_based_on_place_id/fetch_place.py:38-58 | An empty list yields five `None` fields |
| `AddressComponents.ExampleNumberThenRoute` | 2_fetch_place_based_on_place_id/fetch_place.py:45-48 | `123` as `street_number` followed by `Main St` as `route` gives street `123 Main St` and nothing else |
| `AddressComponents.ExampleNamelessNumberThenRoute` | 2_fetch_place_based_on_place_id/fetch_place.py:43-48 | A `street_number` without `long_name` sets street to `""`; a following route then gives just the route name, with no leading space |
| `AddressComponents.ExampleLocalityBeforeCountry` | 2_fetch_place_based_on_place_id/fetch_place.py:49-56 | A single component typed both `country` and `locality` sets the city only |

## Left out

- `get_place_details` (fetch_place.py:12-34): an HTTP GET to the Places API, branching on the status code and printing. This is I/O over a third-party service.
- The module-level example at fetch_place.py:61-80: it prints the response and the extracted fields. This is presentation only.
- `3_calculate_distance_by_place_id/calculate_distance.py` and `1_search a place based on a text/search_place.py`: single HTTP calls, float coordinates and printing, with no self-contained logic.
- Dynamic typing: the script accepts any JSON values. The model fixes `long_name` to a string and `types` to a list of strings. A component that is not a mapping, or whose values have other types, is not modelled. In Python such input would raise or behave differently.
- `short_name` and every other key of a component are never read by the function, so `Component` has no field for them.
- Idempotence (calling the function twice gives equal results) holds for any Dafny function, so it has no lemma of its own.
