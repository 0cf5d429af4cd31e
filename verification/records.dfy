/** The contact record shared by both agenda variants. */
module Records {

  /** Rust's `Option`: an optional value. */
  datatype Option<+T> = None | Some(value: T)

  /** `Contato`: a name, a phone and two optional fields. Two records are
      equal iff all four fields are equal (the derived `PartialEq`). */
  datatype Contact = Contact(
    name: string,
    phone: string,
    email: Option<string>,
    address: Option<string>)

  /** The `retain` predicate of removal by name: keep records with another name. */
  function NameIsNot(n: string): Contact -> bool
  {
    (c: Contact) => c.name != n
  }

  /** The `retain` predicate of removal by phone: keep records with another phone. */
  function PhoneIsNot(t: string): Contact -> bool
  {
    (c: Contact) => c.phone != t
  }
}
