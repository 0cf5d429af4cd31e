/** The form of src/main.rs (`App`), which drives the indexed agenda of
    src/lib.rs. It has no search field. */
module IndexedApp {
  import opened Records
  import Text
  import Phone
  import Form
  import IndexedAgenda

  datatype App = App(agenda: IndexedAgenda.Agenda, fields: Form.Fields, view: Form.View)

  /** `App::new`: empty form, JSON view, and an empty agenda. */
  function New(): (app: App)
    ensures app.fields == Form.Cleared && app.view == Form.Json
    ensures forall n :: IndexedAgenda.FindByName(app.agenda, n).None?
    ensures forall t :: IndexedAgenda.FindByPhone(app.agenda, t).None?
    ensures IndexedAgenda.ListAll(app.agenda) == []
  {
    App(IndexedAgenda.New(), Form.Cleared, Form.Json)
  }

  /** `adicionar_contato`: index and list the record built from the form
      (without checking it), then clear the fields. Both lookups then find
      the new record; every other name and phone keeps its lookup. */
  function AddContact(app: App): (r: App)
    ensures r.fields == Form.Cleared && r.view == app.view
    ensures r.agenda == IndexedAgenda.Add(app.agenda, Form.ToContact(app.fields))
    ensures forall n :: n != app.fields.name ==>
              IndexedAgenda.FindByName(r.agenda, n) == IndexedAgenda.FindByName(app.agenda, n)
    ensures forall t :: t != app.fields.phone ==>
              IndexedAgenda.FindByPhone(r.agenda, t) == IndexedAgenda.FindByPhone(app.agenda, t)
    ensures var c := Form.ToContact(app.fields);
            && IndexedAgenda.FindByName(r.agenda, app.fields.name) == Some(c)
            && IndexedAgenda.FindByPhone(r.agenda, app.fields.phone) == Some(c)
            && IndexedAgenda.ListAll(r.agenda) == IndexedAgenda.ListAll(app.agenda) + [c]
  {
    App(IndexedAgenda.Add(app.agenda, Form.ToContact(app.fields)), Form.Cleared, app.view)
  }

  /** `validar_entrada` of this form: the same rule as in src/ui.rs. */
  function Validate(app: App): (r: bool)
    ensures r <==> !Text.IsBlank(app.fields.name) && Phone.MatchesPattern(Text.Trim(app.fields.phone))
  {
    Form.ValidInput(app.fields)
  }

  /** The add button, enabled only while the input is valid: a press either
      does nothing or runs `AddContact`. */
  function PressAdd(app: App): (r: App)
    ensures !Validate(app) ==> r == app
    ensures Validate(app) ==> r == AddContact(app)
    ensures Validate(app) ==>
      var c := Form.ToContact(app.fields);
      && r.fields == Form.Cleared && r.view == app.view
      && IndexedAgenda.FindByName(r.agenda, c.name) == Some(c)
      && IndexedAgenda.FindByPhone(r.agenda, c.phone) == Some(c)
      && IndexedAgenda.ListAll(r.agenda) == IndexedAgenda.ListAll(app.agenda) + [c]
      && !Text.IsBlank(c.name) && Phone.MatchesPattern(Text.Trim(c.phone))
  {
    if Validate(app) then AddContact(app) else app
  }

  /** The toggle button: only the view changes. */
  function ToggleView(app: App): (r: App)
    ensures r.view != app.view
    ensures r.agenda == app.agenda && r.fields == app.fields
  {
    app.(view := Form.Toggle(app.view))
  }

  lemma ToggleViewTwice(app: App)
    ensures ToggleView(ToggleView(app)) == app
  {
    Form.ToggleInvolution(app.view);
  }
}
