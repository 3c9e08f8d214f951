/** The address field: seven sub-fields with their defaults, edits that
    report the whole record, and the show/required switches read from the
    question's metadata. */
module UserAddressField {
  import opened Prelude
  import opened CommonTypes

  /** The keys of `AddressValue`. */
  datatype AddressKey = Address | Address2 | City | State | Zip | Country | PostalCode

  /** The metadata property named after a key. */
  function KeyName(k: AddressKey): string
  {
    match k
    case Address => "address"
    case Address2 => "address2"
    case City => "city"
    case State => "state"
    case Zip => "zip"
    case Country => "country"
    case PostalCode => "postalCode"
  }

  /** A sub-field's value when the given one is missing or empty: "US" for
      the country, "" otherwise. */
  function Default(k: AddressKey): string
  {
    if k == Country then "US" else ""
  }

  type AddressValue = map<AddressKey, string>

  /** The record built from a value: each sub-field is `value?.<key> ||
      default`. */
  function AddressFrom(value: AddressValue): (r: AddressValue)
    ensures forall k: AddressKey :: k in r
    ensures forall k: AddressKey :: r[k] == (if k in value && value[k] != "" then value[k] else Default(k))
  {
    map k: AddressKey | true :: if k in value && value[k] != "" then value[k] else Default(k)
  }

  /** Without a value every sub-field is "" and the country is "US". */
  lemma EmptyAddress()
    ensures AddressFrom(map[])[Country] == "US"
    ensures forall k: AddressKey :: k != Country ==> AddressFrom(map[])[k] == ""
  {
  }

  /** Building the record again from a built record changes nothing. */
  lemma AddressFromIdempotent(value: AddressValue)
    ensures AddressFrom(AddressFrom(value)) == AddressFrom(value)
  {
    var r := AddressFrom(value);
    forall k: AddressKey ensures AddressFrom(r)[k] == r[k] {
      assert r[k] != "" || Default(k) == "";
    }
  }

  /** `metadata.<name> !== false`. */
  predicate NotFalse(m: Metadata, name: string)
  {
    !(name in m.toggles && !m.toggles[name])
  }

  /** `metadata.<name> === true`. */
  predicate IsTrue(m: Metadata, name: string)
  {
    name in m.toggles && m.toggles[name]
  }

  /** Whether a sub-field is shown: address, city, state and country unless
      switched off; address2, zip and postal code only when switched on. */
  function Shown(m: Metadata, k: AddressKey): (show: bool)
    ensures k in {Address, City, State, Country} ==> (show <==> NotFalse(m, KeyName(k)))
    ensures k in {Address2, Zip, PostalCode} ==> (show <==> IsTrue(m, KeyName(k)))
  {
    match k
    case Address => NotFalse(m, "address")
    case Address2 => IsTrue(m, "address2")
    case City => NotFalse(m, "city")
    case State => NotFalse(m, "state")
    case Zip => IsTrue(m, "zip")
    case Country => NotFalse(m, "country")
    case PostalCode => IsTrue(m, "postalCode")
  }

  /** Whether a sub-field is marked required: `<name>Required === true`. */
  function Required(m: Metadata, k: AddressKey): (required: bool)
    ensures required <==> IsTrue(m, KeyName(k) + "Required")
  {
    IsTrue(m, KeyName(k) + "Required")
  }

  /** With no switches, address, city, state and country are shown and
      nothing is required. */
  lemma DefaultLayout(k: AddressKey)
    ensures Shown(NoMetadata, k) <==> k in {Address, City, State, Country}
    ensures !Required(NoMetadata, k)
  {
  }

  class UserAddress {
    const question: Question
    var addressData: AddressValue

    /** The record starts from the value (an absent value is `{}`). */
    constructor (question: Question, value: AddressValue)
      ensures this.question == question && addressData == AddressFrom(value)
    {
      this.question := question;
      addressData := AddressFrom(value);
    }

    /** `handleFieldChange`: only the edited sub-field changes, and the
        whole updated record is reported. */
    method FieldChange(field: AddressKey, newValue: string) returns (reported: Emit<AddressValue>)
      modifies this
      ensures addressData == old(addressData)[field := newValue]
      ensures reported == Called(addressData)
      ensures forall k :: k in old(addressData) && k != field ==> addressData[k] == old(addressData)[k]
    {
      addressData := addressData[field := newValue];
      reported := Called(addressData);
    }

    /** The value-sync effect: a truthy value rebuilds every sub-field with
        the same defaults. */
    method ValueChanged(value: Option<AddressValue>)
      modifies this
      ensures value.Some? ==> addressData == AddressFrom(value.value)
      ensures value.None? ==> addressData == old(addressData)
    {
      if value.Some? {
        addressData := AddressFrom(value.value);
      }
    }
  }
}
