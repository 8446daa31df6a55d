/** The doctor document (server/src/models/Doctor.ts): the fields a stored doctor has, the
    setters (trimming, lower-casing) and defaults the schema applies when a doctor is created,
    and its validators. Ratings and fees are exact reals. */
module DoctorModel {
  import opened Wrappers
  import opened Text

  datatype Doctor = Doctor(
    id: nat,
    name: string,
    specialty: string,
    rating: real,
    experience: string,
    image: string,
    available: bool,
    email: string,
    phone: string,
    bio: string,
    consultationFee: real,
    languages: seq<string>)

  /** The fields given when a doctor document is created; `None` leaves a field undefined. */
  datatype DoctorInput = DoctorInput(
    name: string,
    specialty: string,
    rating: Option<real>,
    experience: string,
    image: Option<string>,
    available: Option<bool>,
    email: string,
    phone: string,
    bio: Option<string>,
    consultationFee: Option<real>,
    languages: Option<seq<string>>)

  const DefaultRating: real := 4.5
  const DefaultFee: real := 500.0
  const DefaultLanguages: seq<string> := ["English", "Hindi"]
  const DefaultImage: string := "https://images.pexels.com/photos/5327585/pexels-photo-5327585.jpeg?auto=compress&cs=tinysrgb&w=300"

  /** What every stored doctor satisfies once the schema has accepted it. */
  predicate ValidDoctor(d: Doctor) {
    && d.name != [] && Trim(d.name) == d.name
    && d.specialty != [] && Trim(d.specialty) == d.specialty
    && 0.0 <= d.rating <= 5.0
    && d.experience != []
    && d.email != [] && Trim(d.email) == d.email && Lower(d.email) == d.email
    && d.phone != []
    && d.consultationFee >= 0.0
  }

  /** The validator messages of the fields that fail, in the schema's field order. */
  function Violations(name: string, specialty: string, rating: real, experience: string,
                      email: string, phone: string, fee: real): (msgs: seq<string>)
    ensures msgs == [] <==>
      name != [] && specialty != [] && 0.0 <= rating <= 5.0 && experience != [] &&
      email != [] && phone != [] && fee >= 0.0
  {
    (if name == [] then ["Doctor name is required"] else []) +
    (if specialty == [] then ["Specialty is required"] else []) +
    (if rating < 0.0 then ["Rating cannot be negative"] else []) +
    (if rating > 5.0 then ["Rating cannot exceed 5"] else []) +
    (if experience == [] then ["Experience is required"] else []) +
    (if email == [] then ["Email is required"] else []) +
    (if phone == [] then ["Phone is required"] else []) +
    (if fee < 0.0 then ["Fee cannot be negative"] else [])
  }

  /** Creating a doctor document: setters first (trim name and specialty, lower-case and trim
      the email), then defaults for the undefined fields, then the validators. */
  function CreateDoctor(id: nat, input: DoctorInput): (r: Result<Doctor, seq<string>>)
    ensures r.Ok? <==> Violations(Trim(input.name), Trim(input.specialty), input.rating.GetOr(DefaultRating),
                                  input.experience, Trim(Lower(input.email)), input.phone,
                                  input.consultationFee.GetOr(DefaultFee)) == []
    ensures r.Err? ==> r.error == Violations(Trim(input.name), Trim(input.specialty), input.rating.GetOr(DefaultRating),
                                             input.experience, Trim(Lower(input.email)), input.phone,
                                             input.consultationFee.GetOr(DefaultFee))
    ensures r.Ok? ==> ValidDoctor(r.value) && r.value.id == id
    ensures r.Ok? ==> r.value.experience == input.experience && r.value.phone == input.phone
    ensures r.Ok? ==> r.value.image == input.image.GetOr(DefaultImage)
    ensures r.Ok? ==> r.value.name == Trim(input.name) && r.value.specialty == Trim(input.specialty)
    ensures r.Ok? ==> r.value.email == Trim(Lower(input.email))
    ensures r.Ok? ==> r.value.rating == input.rating.GetOr(4.5)
    ensures r.Ok? ==> r.value.consultationFee == input.consultationFee.GetOr(500.0)
    ensures r.Ok? ==> r.value.available == input.available.GetOr(true)
    ensures r.Ok? ==> r.value.languages == input.languages.GetOr(["English", "Hindi"])
    ensures r.Ok? ==> r.value.bio == input.bio.GetOr("")
    ensures r.Err? ==> r.error != []
  {
    var name := Trim(input.name);
    var specialty := Trim(input.specialty);
    var email := Trim(Lower(input.email));
    var rating := input.rating.GetOr(DefaultRating);
    var fee := input.consultationFee.GetOr(DefaultFee);
    var msgs := Violations(name, specialty, rating, input.experience, email, input.phone, fee);
    if msgs != [] then Err(msgs)
    else
      LowerTrimIsLower(input.email);
      TrimIdempotent(input.name);
      TrimIdempotent(input.specialty);
      TrimIdempotent(Lower(input.email));
      Ok(Doctor(id, name, specialty, rating, input.experience, input.image.GetOr(DefaultImage),
                input.available.GetOr(true), email, input.phone, input.bio.GetOr(""), fee,
                input.languages.GetOr(DefaultLanguages)))
  }

  lemma LowerTrimIsLower(s: string)
    ensures Lower(Trim(Lower(s))) == Trim(Lower(s))
  {
    LowerIdempotent(s);
    TrimKeepsLower(Lower(s));
  }

  /** A doctor created with only the required fields gets rating 4.5, fee 500, is available
      and speaks English and Hindi. */
  lemma DefaultsApplied(id: nat, name: string, specialty: string, experience: string, email: string, phone: string)
    requires Trim(name) != [] && Trim(specialty) != [] && experience != [] && Trim(Lower(email)) != [] && phone != []
    ensures var r := CreateDoctor(id, DoctorInput(name, specialty, None, experience, None, None, email, phone, None, None, None));
      r.Ok? && r.value.rating == 4.5 && r.value.consultationFee == 500.0 && r.value.available &&
      r.value.languages == ["English", "Hindi"] && r.value.bio == "" && r.value.image == DefaultImage
  {
  }
}
