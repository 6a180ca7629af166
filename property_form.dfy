/** The add/edit form: its state record of strings, the address search,
    the field update, and the submission that turns the strings into a
    record. */
module PropertyForm {
  import opened Wrappers
  import opened JsStrings
  import opened PropertyRecord

  /** The form state: every input holds the text the user typed. */
  datatype FormData = FormData(
    name: string,
    link: string,
    imageUrl: string,
    price: string,
    currency: string,
    propertyType: string,
    transactionType: string,
    address: string,
    lat: string,
    lng: string,
    area: string,
    rooms: string,
    floor: string,
    description: string,
    amenities: string,
    yearBuilt: string)

  /** The state of a fresh form, and of any form after a submission. */
  const EmptyForm: FormData := FormData("", "", "", "", Currency, Apartment, Rent, "", "", "", "", "", "", "", "", "")

  /** The `toString()` texts of an existing record's numbers, used to prefill
      the form when editing; a missing floor or year is the empty text. */
  datatype NumberTexts = NumberTexts(price: string, lat: string, lng: string, area: string, rooms: string, floor: string, yearBuilt: string)

  /** The form prefilled from an existing record. */
  function EditForm(p: Property, texts: NumberTexts): FormData
  {
    FormData(p.name, p.link, p.imageUrl, texts.price, Currency, p.propertyType, p.transactionType, "",
             texts.lat, texts.lng, texts.area, texts.rooms, texts.floor, p.details.description,
             Join(p.details.amenities, ", "), texts.yearBuilt)
  }

  /** The form's fields, by the `name` attribute of their inputs. */
  datatype Field = Name | Link | ImageUrl | Price | CurrencyField | Type | TransactionType | Address
                 | Lat | Lng | Area | Rooms | Floor | Description | AmenitiesField | YearBuilt

  /** The field an input's `name` attribute designates, if any. */
  function FieldNamed(name: string): Option<Field>
  {
    if name == "name" then Some(Name)
    else if name == "link" then Some(Link)
    else if name == "imageUrl" then Some(ImageUrl)
    else if name == "price" then Some(Price)
    else if name == "currency" then Some(CurrencyField)
    else if name == "type" then Some(Type)
    else if name == "transactionType" then Some(TransactionType)
    else if name == "address" then Some(Address)
    else if name == "lat" then Some(Lat)
    else if name == "lng" then Some(Lng)
    else if name == "area" then Some(Area)
    else if name == "rooms" then Some(Rooms)
    else if name == "floor" then Some(Floor)
    else if name == "description" then Some(Description)
    else if name == "amenities" then Some(AmenitiesField)
    else if name == "yearBuilt" then Some(YearBuilt)
    else None
  }

  /** The `name` attribute of a field's input: every field is reachable by
      a change event. */
  function FieldName(field: Field): (name: string)
    ensures FieldNamed(name) == Some(field)
  {
    match field
    case Name => "name"
    case Link => "link"
    case ImageUrl => "imageUrl"
    case Price => "price"
    case CurrencyField => "currency"
    case Type => "type"
    case TransactionType => "transactionType"
    case Address => "address"
    case Lat => "lat"
    case Lng => "lng"
    case Area => "area"
    case Rooms => "rooms"
    case Floor => "floor"
    case Description => "description"
    case AmenitiesField => "amenities"
    case YearBuilt => "yearBuilt"
  }

  /** The text a field holds. */
  function GetField(f: FormData, field: Field): string
  {
    match field
    case Name => f.name
    case Link => f.link
    case ImageUrl => f.imageUrl
    case Price => f.price
    case CurrencyField => f.currency
    case Type => f.propertyType
    case TransactionType => f.transactionType
    case Address => f.address
    case Lat => f.lat
    case Lng => f.lng
    case Area => f.area
    case Rooms => f.rooms
    case Floor => f.floor
    case Description => f.description
    case AmenitiesField => f.amenities
    case YearBuilt => f.yearBuilt
  }

  /** `{...formData, [field]: value}`. */
  function SetField(f: FormData, field: Field, value: string): FormData
  {
    match field
    case Name => f.(name := value)
    case Link => f.(link := value)
    case ImageUrl => f.(imageUrl := value)
    case Price => f.(price := value)
    case CurrencyField => f.(currency := value)
    case Type => f.(propertyType := value)
    case TransactionType => f.(transactionType := value)
    case Address => f.(address := value)
    case Lat => f.(lat := value)
    case Lng => f.(lng := value)
    case Area => f.(area := value)
    case Rooms => f.(rooms := value)
    case Floor => f.(floor := value)
    case Description => f.(description := value)
    case AmenitiesField => f.(amenities := value)
    case YearBuilt => f.(yearBuilt := value)
  }

  /** A field update stores the typed text in its field and leaves every
      other field as it was. */
  lemma SetFieldThenGet(f: FormData, field: Field, value: string, other: Field)
    ensures GetField(SetField(f, field, value), field) == value
    ensures other != field ==> GetField(SetField(f, field, value), other) == GetField(f, other)
  {
  }

  /** Two forms that agree on every field are the same form. */
  lemma FieldsDetermineForm(f: FormData, g: FormData)
    requires forall field :: GetField(f, field) == GetField(g, field)
    ensures f == g
  {
    assert GetField(f, Name) == GetField(g, Name);
    assert GetField(f, Link) == GetField(g, Link);
    assert GetField(f, ImageUrl) == GetField(g, ImageUrl);
    assert GetField(f, Price) == GetField(g, Price);
    assert GetField(f, CurrencyField) == GetField(g, CurrencyField);
    assert GetField(f, Type) == GetField(g, Type);
    assert GetField(f, TransactionType) == GetField(g, TransactionType);
    assert GetField(f, Address) == GetField(g, Address);
    assert GetField(f, Lat) == GetField(g, Lat);
    assert GetField(f, Lng) == GetField(g, Lng);
    assert GetField(f, Area) == GetField(g, Area);
    assert GetField(f, Rooms) == GetField(g, Rooms);
    assert GetField(f, Floor) == GetField(g, Floor);
    assert GetField(f, Description) == GetField(g, Description);
    assert GetField(f, AmenitiesField) == GetField(g, AmenitiesField);
    assert GetField(f, YearBuilt) == GetField(g, YearBuilt);
  }

  /** Storing the text a field already holds leaves the form as it was. */
  lemma SetSameValue(f: FormData, field: Field)
    ensures SetField(f, field, GetField(f, field)) == f
  {
    var g := SetField(f, field, GetField(f, field));
    forall other ensures GetField(g, other) == GetField(f, other) {
      SetFieldThenGet(f, field, GetField(f, field), other);
    }
    FieldsDetermineForm(g, f);
  }

  /** The first match of an address lookup, or why there is none. */
  datatype GeocodeAnswer = Found(lat: string, lon: string) | NoMatch | Failed

  /** What the search button reports. */
  datatype SearchOutcome = MissingAddress | Located | AddressNotFound | SearchFailed

  /** The form after the search button was pressed with the given answer. */
  function SearchedForm(f: FormData, answer: GeocodeAnswer): FormData
  {
    if f.address == "" then f
    else match answer
      case Found(lat, lon) => f.(lat := lat, lng := lon)
      case _ => f
  }

  function SearchReport(f: FormData, answer: GeocodeAnswer): SearchOutcome
  {
    if f.address == "" then MissingAddress
    else match answer
      case Found(_, _) => Located
      case NoMatch => AddressNotFound
      case Failed => SearchFailed
  }

  /** Why a submission was refused. */
  datatype Rejection = MissingRequiredFields | AddressUnresolved | LookupUnavailable | MissingCoordinates

  datatype SubmitOutcome = Accepted(record: Submission) | Rejected(reason: Rejection)

  /** Name and price, the two required fields, are filled in. */
  predicate RequiredPresent(f: FormData)
  {
    f.name != "" && f.price != ""
  }

  /** The geocoder is asked when an address is given and a coordinate text
      is empty. */
  predicate NeedsLookup(f: FormData)
  {
    f.address != "" && (f.lat == "" || f.lng == "")
  }

  /** A number JavaScript treats as false: NaN or zero. */
  predicate Falsy(n: Option<real>)
  {
    n.None? || n.value == 0.0
  }

  /** `s && s.trim() !== ''`. */
  predicate HasText(s: string)
  {
    s != "" && Trim(s) != ""
  }

  datatype Resolution = Resolved(lat: Option<real>, lng: Option<real>) | Unresolved(reason: Rejection)

  /** The coordinates the submission uses, before the falsy check. */
  function ResolveCoordinates(f: FormData, answer: GeocodeAnswer): Resolution
  {
    if NeedsLookup(f) then
      match answer
      case Found(lat, lon) => Resolved(ParseFloat(lat), ParseFloat(lon))
      case NoMatch => Unresolved(AddressUnresolved)
      case Failed => Unresolved(LookupUnavailable)
    else Resolved(ParseFloat(f.lat), ParseFloat(f.lng))
  }

  function BuildMetrics(f: FormData): Metrics
  {
    Metrics(
      if HasText(f.area) then ParseFloat(f.area) else Some(0.0),
      if HasText(f.rooms) then ParseInt(f.rooms) else Some(0),
      if f.propertyType == Apartment && HasText(f.floor) then NotNull(ParseInt(f.floor)) else Null)
  }

  /** `text ? text.split(',').map(a => a.trim()) : []`. */
  function Amenities(text: string): (r: seq<string>)
    ensures text == "" ==> r == []
    ensures text != "" ==> |r| == Count(text, ',') + 1
    ensures text != "" ==> forall i :: 0 <= i < |r| ==> r[i] == Trim(SplitOnComma(text)[i]) && ',' !in r[i]
  {
    if text == "" then []
    else
      var pieces := SplitOnComma(text);
      seq(|pieces|, i requires 0 <= i < |pieces| => Trim(pieces[i]))
  }

  function BuildDetails(f: FormData): Details
  {
    Details(f.description, Amenities(f.amenities),
            if HasText(f.yearBuilt) then NotNull(ParseInt(f.yearBuilt)) else Null)
  }

  /** The id the submission carries: that of the edited record, when it has
      a non-empty one. */
  function KeptId(property: Option<Property>): Option<string>
  {
    if property.Some? && property.value.id.Some? && property.value.id.value != "" then property.value.id else None
  }

  /** What pressing "submit" does to form `f`, editing `property` (None for
      a new listing), when the geocoder would answer `answer`. */
  function SubmitForm(f: FormData, property: Option<Property>, answer: GeocodeAnswer): (r: SubmitOutcome)
    ensures !RequiredPresent(f) ==> r == Rejected(MissingRequiredFields)
    ensures r.Accepted? ==> r.record.lat != 0.0 && r.record.lng != 0.0
    ensures r.Accepted? ==> r.record.id == KeptId(property)
    ensures r.Accepted? ==> r.record.name == f.name && r.record.price == ParseFloat(f.price)
    ensures r.Accepted? ==> r.record.metrics == BuildMetrics(f) && r.record.details == BuildDetails(f)
    ensures r.Accepted? ==> r.record.link == f.link && r.record.imageUrl == f.imageUrl && r.record.currency == Currency
    ensures r.Accepted? ==> r.record.propertyType == f.propertyType && r.record.transactionType == f.transactionType
  {
    if !RequiredPresent(f) then Rejected(MissingRequiredFields)
    else match ResolveCoordinates(f, answer)
      case Unresolved(reason) => Rejected(reason)
      case Resolved(lat, lng) =>
        if Falsy(lat) || Falsy(lng) then Rejected(MissingCoordinates)
        else Accepted(Submission(KeptId(property), f.name, f.link, f.imageUrl, ParseFloat(f.price), Currency,
                                 f.propertyType, f.transactionType, lat.value, lng.value, BuildMetrics(f), BuildDetails(f)))
  }

  /** A form with name and price whose coordinates resolve to two non-zero
      numbers is accepted with those coordinates. */
  lemma AcceptedWhenValid(f: FormData, property: Option<Property>, answer: GeocodeAnswer, lat: real, lng: real)
    requires RequiredPresent(f)
    requires ResolveCoordinates(f, answer) == Resolved(Some(lat), Some(lng)) && lat != 0.0 && lng != 0.0
    ensures SubmitForm(f, property, answer).Accepted?
    ensures SubmitForm(f, property, answer).record.lat == lat && SubmitForm(f, property, answer).record.lng == lng
  {
  }

  /** The form is accepted exactly when name and price are present, the
      lookup (if one is needed) finds a match, and both coordinates parse to
      non-zero numbers. */
  lemma AcceptedExactly(f: FormData, property: Option<Property>, answer: GeocodeAnswer)
    ensures SubmitForm(f, property, answer).Accepted? <==>
      RequiredPresent(f) && ResolveCoordinates(f, answer).Resolved?
      && !Falsy(ResolveCoordinates(f, answer).lat) && !Falsy(ResolveCoordinates(f, answer).lng)
  {
  }

  /** The geocoder's answer matters only when a lookup is needed. */
  lemma GeocoderOnlyWhenNeeded(f: FormData, property: Option<Property>, a1: GeocodeAnswer, a2: GeocodeAnswer)
    requires !NeedsLookup(f)
    ensures SubmitForm(f, property, a1) == SubmitForm(f, property, a2)
  {
  }

  /** A lookup that finds nothing or fails refuses the submission. */
  lemma LookupFailureRejects(f: FormData, property: Option<Property>, answer: GeocodeAnswer)
    requires RequiredPresent(f) && NeedsLookup(f)
    ensures answer.NoMatch? ==> SubmitForm(f, property, answer) == Rejected(AddressUnresolved)
    ensures answer.Failed? ==> SubmitForm(f, property, answer) == Rejected(LookupUnavailable)
    ensures SubmitForm(f, property, answer).Accepted? ==> answer.Found?
  {
  }

  /** An accepted record's coordinates are the parsed coordinate texts, or
      the parsed first match of the lookup when one was needed. */
  lemma AcceptedCoordinates(f: FormData, property: Option<Property>, answer: GeocodeAnswer)
    requires SubmitForm(f, property, answer).Accepted?
    ensures var s := SubmitForm(f, property, answer).record;
      if NeedsLookup(f) then answer.Found? && ParseFloat(answer.lat) == Some(s.lat) && ParseFloat(answer.lon) == Some(s.lng)
      else ParseFloat(f.lat) == Some(s.lat) && ParseFloat(f.lng) == Some(s.lng)
  {
  }

  /** Without a lookup, a blank coordinate text blocks the submission. */
  lemma BlankCoordinateRejects(f: FormData, property: Option<Property>, answer: GeocodeAnswer)
    requires RequiredPresent(f) && !NeedsLookup(f)
    requires AllWhitespace(f.lat) || AllWhitespace(f.lng)
    ensures SubmitForm(f, property, answer) == Rejected(MissingCoordinates)
  {
  }

  /** A zero latitude counts as missing. */
  lemma ZeroLatitudeRejects(f: FormData, property: Option<Property>, answer: GeocodeAnswer)
    requires RequiredPresent(f) && !NeedsLookup(f) && f.lat == "0"
    ensures SubmitForm(f, property, answer) == Rejected(MissingCoordinates)
  {
    ZeroParses();
  }

  lemma ZeroParses()
    ensures ParseFloat("0") == Some(0.0)
  {
    var z := "0";
    ParseFloatDigits(z, []);
    assert z + [] == z;
    assert DigitsValue(z) == 0 by {
      assert z[..|z| - 1] == [];
    }
  }

  /** Blank numeric texts become their defaults; a floor is kept only for an
      apartment whose floor text is not blank. */
  lemma Coercions(f: FormData, property: Option<Property>, answer: GeocodeAnswer)
    requires SubmitForm(f, property, answer).Accepted?
    ensures var m := SubmitForm(f, property, answer).record.metrics;
      && (!HasText(f.area) ==> m.area == Some(0.0))
      && (HasText(f.area) ==> m.area == ParseFloat(f.area))
      && (!HasText(f.rooms) ==> m.rooms == Some(0))
      && (HasText(f.rooms) ==> m.rooms == ParseInt(f.rooms))
      && (m.floor.NotNull? <==> f.propertyType == Apartment && HasText(f.floor))
      && (m.floor.NotNull? ==> m.floor.value == ParseInt(f.floor))
    ensures var d := SubmitForm(f, property, answer).record.details;
      && (d.yearBuilt.Null? <==> !HasText(f.yearBuilt))
      && (d.yearBuilt.NotNull? ==> d.yearBuilt.value == ParseInt(f.yearBuilt))
  {
  }

  /** Pieces that are empty or all white space are kept, as empty entries,
      rather than dropped. */
  lemma AmenitiesKeepBlankPieces(text: string, i: nat)
    requires text != "" && i <= Count(text, ',')
    ensures Amenities(text)[i] == "" <==> AllWhitespace(SplitOnComma(text)[i])
  {
  }

  /** Prefilling the form with `join(', ')` of trimmed, comma-free amenities
      and submitting it gives the same amenities back. */
  lemma AmenitiesRoundTrip(xs: seq<string>)
    requires xs != [""]
    requires forall i :: 0 <= i < |xs| ==> ',' !in xs[i] && IsTrimmed(xs[i])
    ensures Amenities(Join(xs, ", ")) == xs
  {
    if |xs| == 1 {
      SingleAmenity(xs);
    } else if |xs| > 1 {
      SeveralAmenities(xs);
    }
  }

  lemma SingleAmenity(xs: seq<string>)
    requires |xs| == 1 && xs[0] != "" && ',' !in xs[0] && IsTrimmed(xs[0])
    ensures Amenities(Join(xs, ", ")) == xs
  {
    var text := Join(xs, ", ");
    assert text == xs[0];
    SplitWithoutComma(text);
    AmenitiesOfPieces(text, xs);
  }

  lemma SeveralAmenities(xs: seq<string>)
    requires |xs| > 1
    requires forall i :: 0 <= i < |xs| ==> ',' !in xs[i] && IsTrimmed(xs[i])
    ensures Amenities(Join(xs, ", ")) == xs
  {
    var text := Join(xs, ", ");
    JoinLength(xs, ", ");
    assert ", "[1..] == " ";
    SplitJoin(xs, ", ");
    AmenitiesOfPieces(text, xs);
  }

  /** The amenities of a non-empty text whose pieces are `x0`, `" " + x1`,
      ... for trimmed texts `xs`. */
  lemma AmenitiesOfPieces(text: string, xs: seq<string>)
    requires text != ""
    requires |SplitOnComma(text)| == |xs| > 0 && SplitOnComma(text)[0] == xs[0]
    requires forall i :: 0 < i < |xs| ==> SplitOnComma(text)[i] == " " + xs[i]
    requires forall i :: 0 <= i < |xs| ==> IsTrimmed(xs[i])
    ensures Amenities(text) == xs
  {
    TrimPieces(SplitOnComma(text), xs);
  }

  /** Trimming the pieces `x0`, `" " + x1`, ... of trimmed texts gives the
      texts back. */
  lemma TrimPieces(pieces: seq<string>, xs: seq<string>)
    requires |pieces| == |xs| > 0 && pieces[0] == xs[0]
    requires forall i :: 0 < i < |xs| ==> pieces[i] == " " + xs[i]
    requires forall i :: 0 <= i < |xs| ==> IsTrimmed(xs[i])
    ensures seq(|pieces|, i requires 0 <= i < |pieces| => Trim(pieces[i])) == xs
  {
    TrimmedIsFixed(xs[0]);
    forall i | 0 < i < |xs| ensures Trim(pieces[i]) == xs[i] {
      TrimAfterSpace(xs[i]);
    }
  }

  lemma {:induction false} JoinLength(xs: seq<string>, sep: string)
    requires |xs| > 1
    ensures |Join(xs, sep)| >= |sep|
  {
  }

  /** A space in front of an already trimmed text is trimmed away. */
  lemma TrimAfterSpace(x: string)
    requires IsTrimmed(x)
    ensures Trim(" " + x) == x
  {
    TrimStartAfterSpace(x);
    TrimmedIsFixed(x);
  }

  lemma TrimStartAfterSpace(x: string)
    ensures TrimStart(" " + x) == TrimStart(x)
  {
    var s := " " + x;
    assert s[0] == ' ' && s[1..] == x;
    TrimStartStep(s);
  }

  lemma TrimStartStep(s: string)
    requires s != [] && IsWhitespace(s[0])
    ensures TrimStart(s) == TrimStart(s[1..])
  {
  }

  /** Pressing search and then submit gives what submit alone gives when it
      looks the address up with the same answer. */
  lemma SearchThenSubmit(f: FormData, property: Option<Property>, lat: string, lon: string, later: GeocodeAnswer)
    requires NeedsLookup(f) && lat != "" && lon != ""
    ensures !NeedsLookup(SearchedForm(f, Found(lat, lon)))
    ensures SubmitForm(SearchedForm(f, Found(lat, lon)), property, later) == SubmitForm(f, property, Found(lat, lon))
  {
  }

  /** Editing a record and submitting the prefilled form unchanged keeps its
      id, texts, type and amenities. */
  lemma EditResubmit(p: Property, texts: NumberTexts, answer: GeocodeAnswer)
    requires SubmitForm(EditForm(p, texts), Some(p), answer).Accepted?
    requires p.details.amenities != [""]
    requires forall i :: 0 <= i < |p.details.amenities| ==> ',' !in p.details.amenities[i] && IsTrimmed(p.details.amenities[i])
    ensures var s := SubmitForm(EditForm(p, texts), Some(p), answer).record;
      && (p.id.Some? && p.id.value != "" ==> s.id == p.id)
      && s.name == p.name && s.link == p.link && s.imageUrl == p.imageUrl
      && s.propertyType == p.propertyType && s.transactionType == p.transactionType
      && s.details.description == p.details.description
      && s.details.amenities == p.details.amenities
  {
    AmenitiesRoundTrip(p.details.amenities);
  }

  /** The form component: the record being edited, if any, and the form
      state that the handlers replace. */
  class Form {
    const property: Option<Property>
    var formData: FormData

    /** The form for a new listing. */
    constructor Create()
      ensures property == None && formData == EmptyForm
    {
      property := None;
      formData := EmptyForm;
    }

    /** The form for editing `p`, prefilled from it. */
    constructor Edit(p: Property, texts: NumberTexts)
      ensures property == Some(p) && formData == EditForm(p, texts)
    {
      property := Some(p);
      formData := EditForm(p, texts);
    }

    /** An input changed: the field its `name` designates takes the new
        text. */
    method HandleChange(name: string, value: string)
      modifies this
      ensures FieldNamed(name).Some? ==> formData == SetField(old(formData), FieldNamed(name).value, value)
      ensures FieldNamed(name).None? ==> formData == old(formData)
    {
      var field := FieldNamed(name);
      if field.Some? {
        formData := SetField(formData, field.value, value);
      }
    }

    /** The search button: with an address, the first match of the lookup
        replaces the coordinate texts; otherwise nothing changes. */
    method SearchAddress(answer: GeocodeAnswer) returns (outcome: SearchOutcome)
      modifies this
      ensures formData == SearchedForm(old(formData), answer)
      ensures outcome == SearchReport(old(formData), answer)
      ensures outcome != Located ==> formData == old(formData)
      ensures outcome == Located ==> formData == old(formData).(lat := answer.lat, lng := answer.lon)
    {
      if formData.address == "" {
        return MissingAddress;
      }
      match answer {
        case Found(lat, lon) =>
          formData := formData.(lat := lat, lng := lon);
          outcome := Located;
        case NoMatch =>
          outcome := AddressNotFound;
        case Failed =>
          outcome := SearchFailed;
      }
    }

    /** The submit button. `answer` is what the geocoder would say; `asked`
        tells whether it was asked. An accepted record is the one handed to
        `onSubmit`, after which the form is cleared. */
    method HandleSubmit(answer: GeocodeAnswer) returns (outcome: SubmitOutcome, asked: bool)
      modifies this
      ensures outcome == SubmitForm(old(formData), property, answer)
      ensures asked == (RequiredPresent(old(formData)) && NeedsLookup(old(formData)))
      ensures formData == if outcome.Accepted? then EmptyForm else old(formData)
    {
      var f := formData;
      asked := false;
      if f.name == "" || f.price == "" {
        return Rejected(MissingRequiredFields), false;
      }
      var lat, lng := ParseFloat(f.lat), ParseFloat(f.lng);
      if f.address != "" && (f.lat == "" || f.lng == "") {
        asked := true;
        match answer {
          case Found(a, b) =>
            lat, lng := ParseFloat(a), ParseFloat(b);
          case NoMatch =>
            return Rejected(AddressUnresolved), true;
          case Failed =>
            return Rejected(LookupUnavailable), true;
        }
      }
      if Falsy(lat) || Falsy(lng) {
        return Rejected(MissingCoordinates), asked;
      }
      var record := Submission(None, f.name, f.link, f.imageUrl, ParseFloat(f.price), Currency,
                               f.propertyType, f.transactionType, lat.value, lng.value, BuildMetrics(f), BuildDetails(f));
      if property.Some? && property.value.id.Some? && property.value.id.value != "" {
        record := record.(id := property.value.id);
      }
      outcome := Accepted(record);
      formData := EmptyForm;
    }
  }
}
