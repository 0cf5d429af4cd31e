/** The list-backed contact book of src/contacts.rs (`Agenda`): one vector of
    records that is written back to the store after every change. The store
    is modelled by its contents only; the JSON text, the file system and
    the save-failure panic are not modelled. */
module StoredAgenda {
  import opened Records
  import Seqs

  /** What the store file `contatos.json` holds, as far as loading can tell:
      no file, a file that cannot be opened, a file whose contents do not
      parse as a list of records, or a file holding those records. */
  datatype StoreFile = Missing | Unopenable | Unparsable | Holds(records: seq<Contact>)

  datatype LoadError = OpenFailed | ParseFailed

  datatype LoadResult = Loaded(records: seq<Contact>) | LoadFailed(error: LoadError)

  /** The in-memory list and the store it was last saved to. */
  datatype Agenda = Agenda(contacts: seq<Contact>, store: StoreFile)

  /** The store holds exactly the in-memory list. */
  predicate Saved(a: Agenda)
  {
    a.store == Holds(a.contacts)
  }

  /** `carregar_de_arquivo`: a missing file loads as the empty list; a file
      that cannot be opened or parsed is an error. */
  function Load(f: StoreFile): (r: LoadResult)
    ensures f.Missing? ==> r == Loaded([])
    ensures f.Holds? ==> r == Loaded(f.records)
    ensures r.LoadFailed? <==> f.Unopenable? || f.Unparsable?
  {
    match f
    case Missing => Loaded([])
    case Unopenable => LoadFailed(OpenFailed)
    case Unparsable => LoadFailed(ParseFailed)
    case Holds(records) => Loaded(records)
  }

  /** `salvar_em_arquivo`: the store is overwritten with the whole list. */
  function Save(a: Agenda): (r: Agenda)
    ensures Saved(r) && r.contacts == a.contacts
    ensures Load(r.store) == Loaded(a.contacts)
  {
    a.(store := Holds(a.contacts))
  }

  /** `novo`: start from what the store holds; any load error gives the
      empty list. The store itself is left as it was. */
  function New(f: StoreFile): (a: Agenda)
    ensures f.Holds? ==> a.contacts == f.records
    ensures !f.Holds? ==> a.contacts == []
    ensures a.store == f
  {
    var contacts := match Load(f) case Loaded(rs) => rs case LoadFailed(_) => [];
    Agenda(contacts, f)
  }

  /** `adicionar_contato`: append, then save. */
  function Add(a: Agenda, c: Contact): (r: Agenda)
    ensures |r.contacts| == |a.contacts| + 1
    ensures r.contacts[..|a.contacts|] == a.contacts && r.contacts[|a.contacts|] == c
    ensures Saved(r)
  {
    Save(a.(contacts := a.contacts + [c]))
  }

  /** `mostrar_todos_nomes`: a copy of the list, in order. */
  function ListAll(a: Agenda): (r: seq<Contact>)
    ensures |r| == |a.contacts| && forall i :: 0 <= i < |r| ==> r[i] == a.contacts[i]
  {
    a.contacts
  }

  /** `remover_por_nome`: keep the records with another name, in order, then
      save (also when nothing was removed). */
  function RemoveByName(a: Agenda, n: string): (r: Agenda)
    ensures forall c :: c in r.contacts <==> c in a.contacts && c.name != n
    ensures forall c: Contact :: c.name != n ==> multiset(r.contacts)[c] == multiset(a.contacts)[c]
    ensures Seqs.Subsequence(r.contacts, a.contacts)
    ensures Saved(r)
  {
    Seqs.FilterIsSubsequence(a.contacts, NameIsNot(n));
    Save(a.(contacts := Seqs.Filter(a.contacts, NameIsNot(n))))
  }

  // ---------------------------------------------------------------------------
  // Properties

  /** Reopening the store after a save reproduces the agenda: the persistence
      round trip. */
  lemma ReopenAfterSave(a: Agenda)
    requires Saved(a)
    ensures New(a.store) == a
  {
  }

  /** Every mutation leaves a store that reopens to the same list. */
  lemma ReopenAfterMutation(a: Agenda, c: Contact, n: string)
    ensures New(Add(a, c).store) == Add(a, c)
    ensures New(RemoveByName(a, n).store) == RemoveByName(a, n)
  {
    ReopenAfterSave(Add(a, c));
    ReopenAfterSave(RemoveByName(a, n));
  }

  /** Removing a name nobody has leaves the list as it was, but the store is
      still rewritten with it. */
  lemma RemoveAbsentName(a: Agenda, n: string)
    requires forall c :: c in a.contacts ==> c.name != n
    ensures RemoveByName(a, n) == Save(a)
  {
    forall i | 0 <= i < |a.contacts|
      ensures NameIsNot(n)(a.contacts[i])
    {
      assert a.contacts[i] in a.contacts;
    }
    Seqs.FilterKeepsAll(a.contacts, NameIsNot(n));
  }

  /** Removing the same name twice is removing it once. */
  lemma RemoveByNameIdempotent(a: Agenda, n: string)
    ensures RemoveByName(RemoveByName(a, n), n) == RemoveByName(a, n)
  {
    Seqs.FilterIdempotent(a.contacts, NameIsNot(n));
  }

  /** Adding a record under a name not yet listed and then removing that
      name gives back the original list, now saved. */
  lemma AddThenRemove(a: Agenda, c: Contact)
    requires forall x :: x in a.contacts ==> x.name != c.name
    ensures RemoveByName(Add(a, c), c.name) == Save(a)
  {
    forall i | 0 <= i < |a.contacts|
      ensures NameIsNot(c.name)(a.contacts[i])
    {
      assert a.contacts[i] in a.contacts;
    }
    Seqs.FilterDropsLast(a.contacts, c, NameIsNot(c.name));
    assert Add(a, c).contacts == a.contacts + [c];
  }
}
