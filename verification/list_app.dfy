/** The form of src/ui.rs (`App`), which drives the list-backed agenda of
    src/contacts.rs and adds a search by name. */
module ListApp {
  import opened Records
  import Seqs
  import Text
  import Phone
  import Form
  import StoredAgenda

  datatype App = App(agenda: StoredAgenda.Agenda, fields: Form.Fields, view: Form.View, query: string)

  /** `App::new`: empty form and query, JSON view, and the agenda opened on
      the given store, which opening leaves as it was. */
  function New(f: StoredAgenda.StoreFile): (app: App)
    ensures app.fields == Form.Cleared && app.query == [] && app.view == Form.Json
    ensures f.Holds? ==> app.agenda.contacts == f.records
    ensures !f.Holds? ==> app.agenda.contacts == []
    ensures app.agenda.store == f
    ensures app.agenda == StoredAgenda.New(f)
  {
    App(StoredAgenda.New(f), Form.Cleared, Form.Json, "")
  }

  /** `adicionar_contato`: store the record built from the form (without
      checking it) and clear the four fields. */
  function AddContact(app: App): (r: App)
    ensures r.fields == Form.Cleared
    ensures r.agenda.contacts == app.agenda.contacts + [Form.ToContact(app.fields)]
    ensures StoredAgenda.Saved(r.agenda)
    ensures r.view == app.view && r.query == app.query
  {
    App(StoredAgenda.Add(app.agenda, Form.ToContact(app.fields)), Form.Cleared, app.view, app.query)
  }

  /** `validar_entrada` of this form. */
  function Validate(app: App): (r: bool)
    ensures r <==> !Text.IsBlank(app.fields.name) && Phone.MatchesPattern(Text.Trim(app.fields.phone))
  {
    Form.ValidInput(app.fields)
  }

  /** The add button, enabled only while the input is valid: a press either
      does nothing or runs `AddContact`, so the record stored is the one
      built from the fields, and it has a non-blank name and a phone the
      pattern accepts. */
  function PressAdd(app: App): (r: App)
    ensures !Validate(app) ==> r == app
    ensures Validate(app) ==> r == AddContact(app)
    ensures Validate(app) ==>
      && r.fields == Form.Cleared
      && |r.agenda.contacts| == |app.agenda.contacts| + 1
      && r.agenda.contacts[..|app.agenda.contacts|] == app.agenda.contacts
      && StoredAgenda.Saved(r.agenda)
      && r.view == app.view && r.query == app.query
      && var c := r.agenda.contacts[|app.agenda.contacts|];
         !Text.IsBlank(c.name) && Phone.MatchesPattern(Text.Trim(c.phone))
  {
    if Validate(app) then AddContact(app) else app
  }

  /** The search predicate: the lowercased name contains the lowercased query. */
  function NameMatches(lower: string -> string, query: string): Contact -> bool
  {
    (c: Contact) => Text.Contains(lower(c.name), lower(query))
  }

  /** `pesquisar_contatos`: the listed records whose lowercased name contains
      the lowercased query, in list order. `lower` stands for Rust's
      `str::to_lowercase`. */
  function Search(app: App, lower: string -> string): (r: seq<Contact>)
    ensures forall c :: c in r <==> c in app.agenda.contacts && Text.Contains(lower(c.name), lower(app.query))
    ensures forall c: Contact :: multiset(r)[c] ==
              if Text.Contains(lower(c.name), lower(app.query)) then multiset(app.agenda.contacts)[c] else 0
    ensures Seqs.Subsequence(r, app.agenda.contacts)
    ensures |r| <= |app.agenda.contacts|
  {
    Seqs.FilterIsSubsequence(StoredAgenda.ListAll(app.agenda), NameMatches(lower, app.query));
    Seqs.Filter(StoredAgenda.ListAll(app.agenda), NameMatches(lower, app.query))
  }

  /** An empty query lists every record, given that lowercasing keeps the
      empty string empty. */
  lemma SearchEmptyQuery(app: App, lower: string -> string)
    requires app.query == [] && lower([]) == []
    ensures Search(app, lower) == app.agenda.contacts
  {
    var s := app.agenda.contacts;
    forall i | 0 <= i < |s|
      ensures NameMatches(lower, app.query)(s[i])
    {
      Text.ContainsEmpty(lower(s[i].name));
    }
    Seqs.FilterKeepsAll(s, NameMatches(lower, app.query));
  }

  /** The toggle button: only the view changes. */
  function ToggleView(app: App): (r: App)
    ensures r.view != app.view
    ensures r.agenda == app.agenda && r.fields == app.fields && r.query == app.query
  {
    app.(view := Form.Toggle(app.view))
  }

  lemma ToggleViewTwice(app: App)
    ensures ToggleView(ToggleView(app)) == app
  {
    Form.ToggleInvolution(app.view);
  }
}
