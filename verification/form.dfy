/** The helpers the two desktop forms share (src/ui.rs and src/main.rs):
    turning the text fields into a record, the input check that enables the
    add button, and the view toggle. */
module Form {
  import opened Records
  import Text
  import Phone

  /** `Visualizacao`: how the listed records are shown. */
  datatype View = Json | Formatted

  /** The toggle button: switch to the other view. */
  function Toggle(v: View): (r: View)
    ensures r != v
  {
    match v
    case Json => Formatted
    case Formatted => Json
  }

  /** Toggling twice restores the view. */
  lemma ToggleInvolution(v: View)
    ensures Toggle(Toggle(v)) == v
  {
  }

  /** The four text fields of the form. */
  datatype Fields = Fields(name: string, phone: string, email: string, address: string)

  /** All four fields empty, as after `String::new()` or `clear()`. */
  const Cleared := Fields("", "", "", "")

  /** An optional field: the empty string means absent; anything else is
      kept exactly as typed (no trimming). */
  function OptionalField(s: string): (r: Option<string>)
    ensures r.None? <==> s == []
    ensures r.Some? ==> r.value == s
  {
    if s == [] then None else Some(s)
  }

  /** The record built from the form: name and phone verbatim, email and
      address through `OptionalField`. */
  function ToContact(f: Fields): (r: Contact)
    ensures r.name == f.name && r.phone == f.phone
    ensures r.email.None? <==> f.email == []
    ensures r.email.Some? ==> r.email.value == f.email
    ensures r.address.None? <==> f.address == []
    ensures r.address.Some? ==> r.address.value == f.address
  {
    Contact(f.name, f.phone, OptionalField(f.email), OptionalField(f.address))
  }

  /** The four texts a listed record is displayed with: an absent optional
      field shows as the empty string (`unwrap_or_default`). */
  function Displayed(c: Contact): (f: Fields)
    ensures f.name == c.name && f.phone == c.phone
    ensures c.email.None? ==> f.email == []
    ensures c.email.Some? ==> f.email == c.email.value
    ensures c.address.None? ==> f.address == []
    ensures c.address.Some? ==> f.address == c.address.value
  {
    Fields(c.name, c.phone,
           match c.email case Some(e) => e case None => "",
           match c.address case Some(e) => e case None => "")
  }

  /** Building a record from the form and displaying it shows the form again. */
  lemma DisplayedToContact(f: Fields)
    ensures Displayed(ToContact(f)) == f
  {
  }

  /** Displaying a record and building it back from the texts gives the
      record back, unless an optional field was present but empty, which the
      form cannot tell from absent. */
  lemma ToContactDisplayed(c: Contact)
    ensures ToContact(Displayed(c)) == c <==> c.email != Some("") && c.address != Some("")
  {
  }

  /** `validar_entrada`: the name is not blank and the trimmed phone is
      accepted by the phone recogniser. */
  function ValidInput(f: Fields): (r: bool)
    ensures r <==> !Text.IsBlank(f.name) && Phone.MatchesPattern(Text.Trim(f.phone))
    ensures r ==> exists i :: 0 <= i < |f.name| && !Text.IsWhitespace(f.name[i])
    ensures r ==> 10 <= |Text.Trim(f.phone)| <= 15
    ensures r ==> Phone.CountDigits(Text.Trim(f.phone)) == 10 || Phone.CountDigits(Text.Trim(f.phone)) == 11
  {
    Phone.IsPhoneCorrect(Text.Trim(f.phone));
    Phone.PatternBounds(Text.Trim(f.phone));
    !Text.IsBlank(f.name) && Phone.IsPhone(Text.Trim(f.phone))
  }
}
